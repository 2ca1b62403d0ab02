/** Rotating a signer is renaming it, and no list ever dips below two voters on the way. */
module Rotations {
  import opened Wrappers
  import opened Keys
  import opened Squads
  import opened Builders
  import opened Chain
  import opened Lifecycle
  import opened LifecycleProofs

  function RenameKey(k: Key, from: Key, to: Key): Key {
    if k == from then to else k
  }

  function RenameSigners(signers: seq<Signer>, from: Key, to: Key): (r: seq<Signer>)
    ensures |r| == |signers|
    ensures forall i :: 0 <= i < |r| ==> r[i] == Signer(RenameKey(signers[i].key, from, to), signers[i].mask)
  {
    Map((x: Signer) => Signer(RenameKey(x.key, from, to), x.mask), signers)
  }

  /** The Account with one key written wherever the other stood: the Settings and every policy. */
  function Rename(a: Account, from: Key, to: Key): Account {
    a.(signers := RenameSigners(a.signers, from, to),
       policies := map k | k in a.policies :: a.policies[k].(signers := RenameSigners(a.policies[k].signers, from, to)))
  }

  ghost predicate SameUpToOrder(a: Account, b: Account) {
    a == b.(signers := a.signers) && multiset(a.signers) == multiset(b.signers)
  }

  lemma {:induction false} WithoutAt(signers: seq<Signer>, i: nat)
    requires Distinct(signers) && i < |signers|
    ensures Without(signers, signers[i].key) == signers[..i] + signers[i + 1..]
  {
    if i == 0 {
      NotThere(signers[1..], signers[0].key);
    } else {
      WithoutAt(signers[1..], i - 1);
      assert signers[..i] + signers[i + 1..] == [signers[0]] + (signers[1..][..i - 1] + signers[1..][i..]);
    }
  }

  lemma SwapIsRenaming(signers: seq<Signer>, from: Signer, to: Key)
    requires Distinct(signers) && from in signers
    ensures multiset(Without(signers, from.key) + [Signer(to, from.mask)])
            == multiset(RenameSigners(signers, from.key, to))
  {
    var i :| 0 <= i < |signers| && signers[i] == from;
    WithoutAt(signers, i);
    RenameAt(signers, i, to);
  }

  lemma RenameAt(signers: seq<Signer>, i: nat, to: Key)
    requires Distinct(signers) && i < |signers|
    ensures multiset(RenameSigners(signers, signers[i].key, to))
            == multiset(signers[..i] + signers[i + 1..] + [Signer(to, signers[i].mask)])
  {
    var x := Signer(to, signers[i].mask);
    assert RenameSigners(signers, signers[i].key, to) == signers[..i] + [x] + signers[i + 1..];
  }

  lemma {:induction false} NotThere(signers: seq<Signer>, key: Key)
    requires forall i :: 0 <= i < |signers| ==> signers[i].key != key
    ensures Without(signers, key) == signers
  {
    if signers != [] {
      NotThere(signers[1..], key);
    }
  }

  lemma NothingToRename(signers: seq<Signer>, from: Key, to: Key)
    requires forall i :: 0 <= i < |signers| ==> signers[i].key != from
    ensures RenameSigners(signers, from, to) == signers
  {
  }

  // ---- each rotation lands, and lands as a renaming ----

  lemma StepOf(s: System, intent: Intent, after: Account)
    requires Propose(s, intent).Some? && Propose(s, intent).value.Ok?
    requires ApplyAll(s.account, ActionsOf(Propose(s, intent).value.value)) == Ok(after)
    requires Voters(after.signers) >= after.threshold
    ensures Step(s, intent) == Remember(s, intent, after)
  {
  }

  lemma RotatePrimaryLands(s: System, newKey: Key)
    requires WellFormed(s) && s.limitSeed.Some? && s.aboveSeed.Some?
    requires !Names(s.account.signers, newKey)
    ensures CurrentLimit(s).Some?
    ensures Step(s, RotatePrimary(newKey)) == s.(account := AfterPrimary(s, newKey), primary := newKey)
  {
    RotatePrimaryExecutes(s, newKey);
    StepOf(s, RotatePrimary(newKey), AfterPrimary(s, newKey));
  }

  lemma RotatePrimaryExecutes(s: System, newKey: Key)
    requires WellFormed(s) && s.limitSeed.Some? && s.aboveSeed.Some?
    requires !Names(s.account.signers, newKey)
    ensures CurrentLimit(s).Some?
    ensures var built := Propose(s, RotatePrimary(newKey));
            && built.Some? && built.value.Ok?
            && ApplyAll(s.account, ActionsOf(built.value.value)) == Ok(AfterPrimary(s, newKey))
    ensures Voters(AfterPrimary(s, newKey).signers) >= AfterPrimary(s, newKey).threshold
  {
    OnDeviceNamed(s);
    RotatePrimaryRuns(s, newKey);
    var t := s.(account := AfterPrimary(s, newKey), primary := newKey);
    SwapOnDevice(s, s.primary, newKey, t);
    ThreeVoters(t);
  }

  lemma RotatePrimaryRenames(s: System, newKey: Key)
    requires WellFormed(s) && s.limitSeed.Some? && s.aboveSeed.Some?
    requires !Names(s.account.signers, newKey)
    ensures SameUpToOrder(Step(s, RotatePrimary(newKey)).account, Rename(s.account, s.primary, newKey))
  {
    RotatePrimaryLands(s, newKey);
    LimitIsRead(s);
    SwapIsRenaming(s.account.signers, Signer(s.primary, ALL_PERMISSIONS), newKey);
    PrimaryPolicies(s, newKey);
  }

  lemma PrimaryPolicies(s: System, newKey: Key)
    requires PoliciesOk(s) && s.primary != s.approval && CurrentLimit(s).Some? && s.aboveSeed.Some?
    ensures AfterPrimary(s, newKey).policies == Rename(s.account, s.primary, newKey).policies
  {
    LimitIsRead(s);
    assert RenameSigners(LimitSigners(s.primary), s.primary, newKey) == LimitSigners(newKey);
    assert RenameSigners(AboveLimitSigners(s.primary, s.approval), s.primary, newKey)
        == AboveLimitSigners(newKey, s.approval);
  }

  lemma RotateApprovalLands(s: System, newKey: Key)
    requires WellFormed(s) && s.aboveSeed.Some?
    requires !Names(s.account.signers, newKey)
    ensures Step(s, RotateApproval(newKey)) == s.(account := AfterApproval(s, newKey), approval := newKey)
  {
    RotateApprovalExecutes(s, newKey);
    StepOf(s, RotateApproval(newKey), AfterApproval(s, newKey));
  }

  lemma RotateApprovalExecutes(s: System, newKey: Key)
    requires WellFormed(s) && s.aboveSeed.Some?
    requires !Names(s.account.signers, newKey)
    ensures var built := Propose(s, RotateApproval(newKey));
            && built.Some? && built.value.Ok?
            && ApplyAll(s.account, ActionsOf(built.value.value)) == Ok(AfterApproval(s, newKey))
    ensures Voters(AfterApproval(s, newKey).signers) >= AfterApproval(s, newKey).threshold
  {
    OnDeviceNamed(s);
    RotateApprovalRuns(s, newKey);
    var t := s.(account := AfterApproval(s, newKey), approval := newKey);
    SwapOnDevice(s, s.approval, newKey, t);
    ThreeVoters(t);
  }

  lemma RotateApprovalRenames(s: System, newKey: Key)
    requires WellFormed(s) && s.aboveSeed.Some?
    requires !Names(s.account.signers, newKey)
    ensures SameUpToOrder(Step(s, RotateApproval(newKey)).account, Rename(s.account, s.approval, newKey))
  {
    RotateApprovalLands(s, newKey);
    SwapIsRenaming(s.account.signers, Signer(s.approval, ALL_PERMISSIONS), newKey);
    ApprovalPolicies(s, newKey);
  }

  lemma ApprovalPolicies(s: System, newKey: Key)
    requires PoliciesOk(s) && s.primary != s.approval && s.aboveSeed.Some?
    ensures AfterApproval(s, newKey).policies == Rename(s.account, s.approval, newKey).policies
  {
    NothingToRename(LimitSigners(s.primary), s.approval, newKey);
    assert RenameSigners(AboveLimitSigners(s.primary, s.approval), s.approval, newKey)
        == AboveLimitSigners(s.primary, newKey);
  }

  function AfterRecovery(s: System, oldKey: Key, newKey: Key): Account {
    s.account.(signers := Without(s.account.signers, oldKey) + [Signer(newKey, RECOVERY_PERMISSIONS)])
  }

  /** The recovery rotation as built: any key on the Account is swapped for a vote-only one. */
  lemma RotateRecoveryExecutes(s: System, oldKey: Key, newKey: Key)
    requires Distinct(s.account.signers) && AllVote(s.account.signers)
    requires |s.account.signers| >= 2 && s.account.threshold == ACCOUNT_THRESHOLD
    requires Names(s.account.signers, oldKey) && !Names(s.account.signers, newKey)
    ensures var built := BuildRotateRecovery(RequestFor(s, s.primary), oldKey, newKey);
            built.Ok? && Execute(s.account, ActionsOf(built.value)) == Ok(AfterRecovery(s, oldKey, newKey))
  {
    VotesAreMasks();
    var x := Signer(newKey, RECOVERY_PERMISSIONS);
    var actions := [AddSigner(x), RemoveSigner(oldKey)];
    assert actions + [] == actions;
    SwapThen(s.account, x, oldKey, []);
    WithoutKeepsDistinct(s.account.signers, oldKey);
    EveryoneVotes(AfterRecovery(s, oldKey, newKey).signers);
  }

  lemma RotateRecoveryLands(s: System, oldKey: Key, newKey: Key)
    requires WellFormed(s) && IsRecovery(s, oldKey) && !Names(s.account.signers, newKey)
    ensures Step(s, RotateRecovery(oldKey, newKey)) == s.(account := AfterRecovery(s, oldKey, newKey))
  {
    RotateRecoveryExecutes(s, oldKey, newKey);
    StepOf(s, RotateRecovery(oldKey, newKey), AfterRecovery(s, oldKey, newKey));
  }

  lemma RotateRecoveryRenames(s: System, oldKey: Key, newKey: Key)
    requires WellFormed(s) && IsRecovery(s, oldKey) && !Names(s.account.signers, newKey)
    ensures SameUpToOrder(Step(s, RotateRecovery(oldKey, newKey)).account, Rename(s.account, oldKey, newKey))
  {
    RotateRecoveryLands(s, oldKey, newKey);
    RecoverySwap(s, oldKey, newKey);
    RenameLeavesPolicies(s.account, oldKey, newKey);
  }

  lemma RecoverySwap(s: System, oldKey: Key, newKey: Key)
    requires SignersOk(s) && IsRecovery(s, oldKey)
    ensures multiset(AfterRecovery(s, oldKey, newKey).signers)
            == multiset(RenameSigners(s.account.signers, oldKey, newKey))
  {
    var x :| x in s.account.signers && x.key == oldKey;
    assert x == Signer(oldKey, RECOVERY_PERMISSIONS);
    SwapIsRenaming(s.account.signers, x, newKey);
  }

  lemma RenameLeavesPolicies(a: Account, from: Key, to: Key)
    requires forall k :: k in a.policies ==> !Names(a.policies[k].signers, from)
    ensures Rename(a, from, to).policies == a.policies
  {
    forall k | k in a.policies
      ensures RenameSigners(a.policies[k].signers, from, to) == a.policies[k].signers
    {
      var signers := a.policies[k].signers;
      assert forall i :: 0 <= i < |signers| ==> signers[i] in signers;
      NothingToRename(signers, from, to);
    }
  }

  // ---- there and back ----

  lemma SwapBack(signers: seq<Signer>, x: Signer)
    requires Distinct(signers) && x in signers
    ensures multiset(Without(signers, x.key) + [x]) == multiset(signers)
  {
    SwapIsRenaming(signers, x, x.key);
    assert RenameSigners(signers, x.key, x.key) == signers;
  }

  lemma WithoutLast(signers: seq<Signer>, x: Signer)
    requires !Names(signers, x.key)
    ensures Without(signers + [x], x.key) == signers
  {
    assert forall i :: 0 <= i < |signers| ==> signers[i] in signers;
    WithoutJoin(signers, [x], x.key);
    NotThere(signers, x.key);
  }

  lemma {:induction false} WithoutJoin(a: seq<Signer>, b: seq<Signer>, key: Key)
    ensures Without(a + b, key) == Without(a, key) + Without(b, key)
  {
    if a == [] {
      assert a + b == b;
    } else {
      assert (a + b)[1..] == a[1..] + b;
      WithoutJoin(a[1..], b, key);
    }
  }

  lemma SignersBack(signers: seq<Signer>, x: Signer, newKey: Key)
    requires Distinct(signers) && x in signers && !Names(signers, newKey)
    ensures var swapped := Without(signers, x.key) + [Signer(newKey, x.mask)];
            && !Names(swapped, x.key)
            && multiset(Without(swapped, newKey) + [x]) == multiset(signers)
  {
    assert newKey != x.key;
    WithoutLast(Without(signers, x.key), Signer(newKey, x.mask));
    SwapBack(signers, x);
  }

  /** The primary moved to a new key and back again: the same Account, its signers perhaps in another order. */
  lemma RotatePrimaryAndBack(s: System, newKey: Key)
    requires WellFormed(s) && s.limitSeed.Some? && s.aboveSeed.Some?
    requires !Names(s.account.signers, newKey)
    ensures var back := Step(Step(s, RotatePrimary(newKey)), RotatePrimary(s.primary));
            SameUpToOrder(back.account, s.account) && back == s.(account := back.account)
  {
    RotatePrimaryLands(s, newKey);
    RotatePrimaryKeeps(s, newKey);
    SignersBack(s.account.signers, Signer(s.primary, ALL_PERMISSIONS), newKey);
    var mid := s.(account := AfterPrimary(s, newKey), primary := newKey);
    RotatePrimaryLands(mid, s.primary);
    PrimaryPoliciesBack(s, newKey, mid);
  }

  lemma PrimaryPoliciesBack(s: System, newKey: Key, mid: System)
    requires PoliciesOk(s) && s.limitSeed.Some? && s.aboveSeed.Some? && CurrentLimit(s).Some?
    requires mid == s.(account := AfterPrimary(s, newKey), primary := newKey) && PoliciesOk(mid)
    ensures CurrentLimit(mid).Some? && AfterPrimary(mid, s.primary).policies == s.account.policies
  {
    LimitIsRead(s);
    LimitIsRead(mid);
  }

  lemma RotateApprovalAndBack(s: System, newKey: Key)
    requires WellFormed(s) && s.aboveSeed.Some?
    requires !Names(s.account.signers, newKey)
    ensures var back := Step(Step(s, RotateApproval(newKey)), RotateApproval(s.approval));
            SameUpToOrder(back.account, s.account) && back == s.(account := back.account)
  {
    RotateApprovalLands(s, newKey);
    RotateApprovalKeeps(s, newKey);
    SignersBack(s.account.signers, Signer(s.approval, ALL_PERMISSIONS), newKey);
    var mid := s.(account := AfterApproval(s, newKey), approval := newKey);
    RotateApprovalLands(mid, s.approval);
    ApprovalPoliciesBack(s, newKey, mid);
  }

  lemma ApprovalPoliciesBack(s: System, newKey: Key, mid: System)
    requires PoliciesOk(s) && s.aboveSeed.Some?
    requires mid == s.(account := AfterApproval(s, newKey), approval := newKey)
    ensures AfterApproval(mid, s.approval).policies == s.account.policies
  {
  }

  lemma RotateRecoveryAndBack(s: System, oldKey: Key, newKey: Key)
    requires WellFormed(s) && IsRecovery(s, oldKey) && !Names(s.account.signers, newKey)
    ensures var back := Step(Step(s, RotateRecovery(oldKey, newKey)), RotateRecovery(newKey, oldKey));
            SameUpToOrder(back.account, s.account) && back == s.(account := back.account)
  {
    RotateRecoveryLands(s, oldKey, newKey);
    RotateRecoveryKeeps(s, oldKey, newKey);
    var x :| x in s.account.signers && x.key == oldKey;
    SignersBack(s.account.signers, x, newKey);
    var mid := s.(account := AfterRecovery(s, oldKey, newKey));
    RotateRecoveryLands(mid, newKey, oldKey);
  }

  // ---- where the builders stop short ----

  /** The approval signer can be replaced exactly when there is an above-limit rule, by a key not yet on the Account. */
  lemma RotateApprovalLandsIff(s: System, newKey: Key)
    requires WellFormed(s)
    ensures Step(s, RotateApproval(newKey)) != s <==> s.aboveSeed.Some? && !Names(s.account.signers, newKey)
  {
    if s.aboveSeed.Some? && !Names(s.account.signers, newKey) {
      RotateApprovalLands(s, newKey);
      OnDeviceNamed(s);
    } else if Step(s, RotateApproval(newKey)) != s {
      RotateApprovalFresh(s, newKey);
    }
  }

  /**
   * The primary can be replaced exactly when a spending limit is there to be
   * restated: an Account that took its limit off has no rotation to build.
   */
  lemma RotatePrimaryLandsIff(s: System, newKey: Key)
    requires WellFormed(s)
    ensures Step(s, RotatePrimary(newKey)) != s <==>
            s.limitSeed.Some? && s.aboveSeed.Some? && !Names(s.account.signers, newKey)
  {
    if s.limitSeed.Some? && s.aboveSeed.Some? && !Names(s.account.signers, newKey) {
      RotatePrimaryLands(s, newKey);
      OnDeviceNamed(s);
    } else if Step(s, RotatePrimary(newKey)) != s {
      RotatePrimaryFresh(s, newKey);
    }
  }

  /** The above-limit rule an allowlist would write. */
  function RuleAllowing(allowed: seq<Key>, primary: Key, approval: Key): Policy {
    Policy(ProgramInteractionPayload(PRIMARY_ACCOUNT_INDEX, Map(k => Constraint(k, 0, 0), allowed)),
           AboveLimitSigners(primary, approval), 2, 0)
  }

  lemma SameRuleSameList(allowed: seq<Key>, primary: Key, approval: Key)
    ensures RuleAllowing(allowed, primary, approval) == AboveLimitPolicy(primary, approval)
       <==> allowed == ABOVE_LIMIT_PROGRAM_ALLOWLIST
  {
    var a, b := Map(k => Constraint(k, 0, 0), allowed), Map(k => Constraint(k, 0, 0), ABOVE_LIMIT_PROGRAM_ALLOWLIST);
    if a == b {
      forall i | 0 <= i < |allowed| ensures allowed[i] == ABOVE_LIMIT_PROGRAM_ALLOWLIST[i] {
        assert a[i] == Constraint(allowed[i], 0, 0) && b[i] == Constraint(ABOVE_LIMIT_PROGRAM_ALLOWLIST[i], 0, 0);
      }
    }
  }

  /**
   * Built with another allowlist, an approval rotation still lands, and renames exactly
   * when the list is the rule's own.
   */
  lemma RotateApprovalRenamesIff(s: System, newKey: Key, allowed: seq<Key>)
    requires WellFormed(s) && s.aboveSeed.Some? && !Names(s.account.signers, newKey)
    requires AboveLimitPayload(allowed).Ok?
    ensures var built := BuildRotateApproval(RequestFor(s, s.primary), s.approval, newKey, s.primary, s.aboveSeed.value,
                                             allowed);
            && built.Ok? && ApplyAll(s.account, ActionsOf(built.value)).Ok?
            && (SameUpToOrder(ApplyAll(s.account, ActionsOf(built.value)).value, Rename(s.account, s.approval, newKey))
                <==> allowed == ABOVE_LIMIT_PROGRAM_ALLOWLIST)
  {
    OnDeviceNamed(s);
    ApprovalAllowing(s, newKey, allowed);
    RotateApprovalLands(s, newKey);
    RotateApprovalRenames(s, newKey);
    SameRuleSameList(allowed, s.primary, newKey);
    OneRuleDiffers(AfterApproval(s, newKey), PolicyAt(s, s.aboveSeed.value), RuleAllowing(allowed, s.primary, newKey),
                   Rename(s.account, s.approval, newKey));
  }

  lemma ApprovalAllowingBuilds(s: System, newKey: Key, allowed: seq<Key>)
    requires s.aboveSeed.Some? && s.approval != newKey && s.primary != newKey && AboveLimitPayload(allowed).Ok?
    ensures var built := BuildRotateApproval(RequestFor(s, s.primary), s.approval, newKey, s.primary, s.aboveSeed.value,
                                             allowed);
            && built.Ok?
            && ActionsOf(built.value)
               == [AddSigner(Signer(newKey, ALL_PERMISSIONS)), RemoveSigner(s.approval)]
                  + [UpdateTo(PolicyAt(s, s.aboveSeed.value), RuleAllowing(allowed, s.primary, newKey))]
  {
    assert AboveLimitPayload(allowed).value == RuleAllowing(allowed, s.primary, newKey).payload;
  }

  lemma ApprovalAllowing(s: System, newKey: Key, allowed: seq<Key>)
    requires s.aboveSeed.Some? && PolicyAt(s, s.aboveSeed.value) in s.account.policies && AboveLimitPayload(allowed).Ok?
    requires Names(s.account.signers, s.approval) && Names(s.account.signers, s.primary)
        && !Names(s.account.signers, newKey)
    ensures var built := BuildRotateApproval(RequestFor(s, s.primary), s.approval, newKey, s.primary, s.aboveSeed.value,
                                             allowed);
            && built.Ok?
            && ApplyAll(s.account, ActionsOf(built.value))
               == Ok(WithRule(AfterApproval(s, newKey), PolicyAt(s, s.aboveSeed.value),
                              RuleAllowing(allowed, s.primary, newKey)))
  {
    var above, rule := PolicyAt(s, s.aboveSeed.value), RuleAllowing(allowed, s.primary, newKey);
    var x := Signer(newKey, ALL_PERMISSIONS);
    ApprovalAllowingBuilds(s, newKey, allowed);
    SwapThen(s.account, x, s.approval, [UpdateTo(above, rule)]);
    ApplyOne(s.account.(signers := Without(s.account.signers, s.approval) + [x]), UpdateTo(above, rule));
    WrittenTwice(s.account.policies, above, AboveLimitPolicy(s.primary, newKey), rule);
  }

  lemma WrittenTwice(policies: map<Key, Policy>, key: Key, first: Policy, second: Policy)
    ensures policies[key := first][key := second] == policies[key := second]
  {
  }

  function WithRule(a: Account, key: Key, rule: Policy): Account {
    a.(policies := a.policies[key := rule])
  }

  lemma OneRuleDiffers(a: Account, key: Key, rule: Policy, b: Account)
    requires SameUpToOrder(a, b) && key in a.policies
    ensures SameUpToOrder(WithRule(a, key, rule), b) <==> rule == a.policies[key]
  {
    if rule == a.policies[key] {
      assert WithRule(a, key, rule) == a;
    } else {
      assert WithRule(a, key, rule).policies[key] != b.policies[key];
    }
  }

  /** The same for the primary. */
  lemma RotatePrimaryRenamesIff(s: System, newKey: Key, allowed: seq<Key>)
    requires WellFormed(s) && s.limitSeed.Some? && s.aboveSeed.Some? && !Names(s.account.signers, newKey)
    requires AboveLimitPayload(allowed).Ok?
    ensures CurrentLimit(s).Some?
    ensures var built := BuildRotatePrimary(RequestFor(s, s.approval), s.primary, newKey, s.approval, s.account.signers,
                                            s.limitSeed.value, CurrentLimit(s).value, s.aboveSeed.value, allowed);
            && built.Ok? && ApplyAll(s.account, ActionsOf(built.value)).Ok?
            && (SameUpToOrder(ApplyAll(s.account, ActionsOf(built.value)).value, Rename(s.account, s.primary, newKey))
                <==> allowed == ABOVE_LIMIT_PROGRAM_ALLOWLIST)
  {
    OnDeviceNamed(s);
    LimitIsRead(s);
    PrimaryAllowing(s, newKey, allowed);
    RotatePrimaryLands(s, newKey);
    RotatePrimaryRenames(s, newKey);
    SameRuleSameList(allowed, newKey, s.approval);
    OneRuleDiffers(AfterPrimary(s, newKey), PolicyAt(s, s.aboveSeed.value), RuleAllowing(allowed, newKey, s.approval),
                   Rename(s.account, s.primary, newKey));
  }

  lemma PrimaryAllowing(s: System, newKey: Key, allowed: seq<Key>)
    requires CurrentLimit(s).Some? && s.aboveSeed.Some? && s.limitSeed != s.aboveSeed
    requires PolicyAt(s, s.aboveSeed.value) in s.account.policies && AboveLimitPayload(allowed).Ok?
    requires TermsOf(CurrentLimit(s).value).maxPerUse <= TermsOf(CurrentLimit(s).value).maxPerPeriod
    requires Distinct(s.account.signers) && Signer(s.approval, ALL_PERMISSIONS) in s.account.signers
    requires Names(s.account.signers, s.primary) && Names(s.account.signers, s.approval)
        && !Names(s.account.signers, newKey)
    ensures var built := BuildRotatePrimary(RequestFor(s, s.approval), s.primary, newKey, s.approval, s.account.signers,
                                            s.limitSeed.value, CurrentLimit(s).value, s.aboveSeed.value, allowed);
            && built.Ok?
            && ApplyAll(s.account, ActionsOf(built.value))
               == Ok(WithRule(AfterPrimary(s, newKey), PolicyAt(s, s.aboveSeed.value),
                              RuleAllowing(allowed, newKey, s.approval)))
  {
    var k, l := PolicyAt(s, s.limitSeed.value), PolicyAt(s, s.aboveSeed.value);
    var p, q := LimitPolicy(TermsOf(CurrentLimit(s).value), newKey), RuleAllowing(allowed, newKey, s.approval);
    var x := Signer(newKey, ALL_PERMISSIONS);
    VotesAreMasks();
    assert AboveLimitPayload(allowed).value == q.payload;
    var built := BuildRotatePrimary(RequestFor(s, s.approval), s.primary, newKey, s.approval, s.account.signers,
                                    s.limitSeed.value, CurrentLimit(s).value, s.aboveSeed.value, allowed);
    assert ActionsOf(built.value) == [AddSigner(x), RemoveSigner(s.primary)] + [UpdateTo(k, p), UpdateTo(l, q)];
    SwapThen(s.account, x, s.primary, [UpdateTo(k, p), UpdateTo(l, q)]);
    RewriteTwo(s.account.(signers := Without(s.account.signers, s.primary) + [x]), k, p, l, q);
    WrittenTwice(s.account.policies[k := p], l, AboveLimitPolicy(newKey, s.approval), q);
  }

  /** The recovery rotation does not check whose key it retires; the Account survives it only if the caller did. */
  lemma RotateRecoveryKeepsIff(s: System, oldKey: Key, newKey: Key)
    requires WellFormed(s) && Names(s.account.signers, oldKey) && !Names(s.account.signers, newKey)
    ensures var built := BuildRotateRecovery(RequestFor(s, s.primary), oldKey, newKey);
            && built.Ok? && Execute(s.account, ActionsOf(built.value)).Ok?
            && (WellFormed(s.(account := Execute(s.account, ActionsOf(built.value)).value)) <==> IsRecovery(s, oldKey))
  {
    RotateRecoveryExecutes(s, oldKey, newKey);
    if IsRecovery(s, oldKey) {
      StepOf(s, RotateRecovery(oldKey, newKey), AfterRecovery(s, oldKey, newKey));
      RotateRecoveryKeeps(s, oldKey, newKey);
    }
  }

  // ---- no prefix of any list leaves fewer voters than the threshold ----

  function Adds(actions: seq<SettingsAction>): nat {
    if actions == [] then 0 else (if actions[0].AddSigner? then 1 else 0) + Adds(actions[1..])
  }

  function Removes(actions: seq<SettingsAction>): nat {
    if actions == [] then 0 else (if actions[0].RemoveSigner? then 1 else 0) + Removes(actions[1..])
  }

  predicate AllVote(signers: seq<Signer>) {
    forall x :: x in signers ==> Has(x.mask, VOTE)
  }

  lemma ApplyBalance(a: Account, action: SettingsAction)
    requires Distinct(a.signers) && AllVote(a.signers)
    requires action.AddSigner? ==> Has(action.newSigner.mask, VOTE)
    requires Apply(a, action).Ok?
    ensures var next := Apply(a, action).value.signers;
            Distinct(next) && AllVote(next) && |next| == |a.signers| + Adds([action]) - Removes([action])
  {
    assert [action][1..] == [];
    if action.AddSigner? {
      assert forall i :: 0 <= i < |a.signers| ==> a.signers[i] in a.signers;
    } else if action.RemoveSigner? {
      WithoutKeepsDistinct(a.signers, action.oldSigner);
    }
  }

  lemma {:induction false} SignerBalance(a: Account, actions: seq<SettingsAction>)
    requires Distinct(a.signers) && AllVote(a.signers)
    requires forall x :: x in actions && x.AddSigner? ==> Has(x.newSigner.mask, VOTE)
    requires ApplyAll(a, actions).Ok?
    ensures var after := ApplyAll(a, actions).value.signers;
            Distinct(after) && AllVote(after) && |after| == |a.signers| + Adds(actions) - Removes(actions)
    decreases |actions|
  {
    if actions != [] {
      assert actions[0] in actions;
      ApplyBalance(a, actions[0]);
      assert [actions[0]][1..] == [];
      forall x | x in actions[1..] && x.AddSigner? ensures Has(x.newSigner.mask, VOTE) {
        assert x in actions;
      }
      SignerBalance(Apply(a, actions[0]).value, actions[1..]);
    }
  }

  /** A removal only second, after an addition. */
  predicate AddsFirst(actions: seq<SettingsAction>) {
    && 1 <= |actions| <= 4 && !actions[0].RemoveSigner?
    && (|actions| >= 2 && actions[1].RemoveSigner? ==> actions[0].AddSigner?)
    && forall i :: 2 <= i < |actions| ==> !actions[i].RemoveSigner?
  }

  lemma AtMostFour(actions: seq<SettingsAction>, n: nat)
    requires AddsFirst(actions) && n <= |actions|
    ensures Removes(actions[..n]) <= Adds(actions[..n])
  {
    var p := actions[..n];
    assert n >= 2 ==> p[1..] == [p[1]] + p[2..];
    if n >= 1 {
      assert p[1..] == actions[1..n];
      if n >= 2 {
        assert p[1..][1..] == actions[2..n];
        NoRemoves(actions[2..n]);
      } else {
        assert p[1..] == [];
      }
    }
  }

  lemma {:induction false} NoRemoves(actions: seq<SettingsAction>)
    requires forall i :: 0 <= i < |actions| ==> !actions[i].RemoveSigner?
    ensures Removes(actions) == 0
  {
    if actions != [] { NoRemoves(actions[1..]); }
  }

  /** Every built list adds before it removes, but for a removal alone. */
  lemma BuiltAddsFirst(s: System, intent: Intent)
    requires Propose(s, intent).Some? && Propose(s, intent).value.Ok?
    ensures var actions := ActionsOf(Propose(s, intent).value.value);
            if intent.RemoveRecovery? then actions == [RemoveSigner(intent.oldKey)] else AddsFirst(actions)
  {
  }

  /** Every signer it adds votes, and nothing in it touches the threshold. */
  lemma BuiltAddsVoters(s: System, intent: Intent)
    requires Propose(s, intent).Some? && Propose(s, intent).value.Ok?
    ensures forall x :: x in ActionsOf(Propose(s, intent).value.value) ==>
              !x.ChangeThreshold? && !x.OtherAction? && (x.AddSigner? ==> Has(x.newSigner.mask, VOTE))
  {
    VotesAreMasks();
  }

  lemma NoPrefixDips(s: System, intent: Intent, n: nat)
    requires WellFormed(s)
    requires Propose(s, intent).Some? && Propose(s, intent).value.Ok?
    requires n <= |ActionsOf(Propose(s, intent).value.value)|
    ensures var partial := ApplyAll(s.account, ActionsOf(Propose(s, intent).value.value)[..n]);
            partial.Ok? ==> Voters(partial.value.signers) >= ACCOUNT_THRESHOLD
  {
    var actions := ActionsOf(Propose(s, intent).value.value)[..n];
    if ApplyAll(s.account, actions).Ok? {
      VotesAreMasks();
      ThreeVoters(s);
      BuiltAddsFirst(s, intent);
      BuiltAddsVoters(s, intent);
      if !intent.RemoveRecovery? { AtMostFour(ActionsOf(Propose(s, intent).value.value), n); }
      forall x | x in actions ensures x in ActionsOf(Propose(s, intent).value.value) {}
      SignerBalance(s.account, actions);
      EveryoneVotes(ApplyAll(s.account, actions).value.signers);
      if intent.RemoveRecovery? && n == 1 {
        assert actions[1..] == [];
      }
    }
  }
}
