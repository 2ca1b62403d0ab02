/**
 * The same for the two walks that move no key: an accepted limit change or
 * provisioning keeps an Account well formed exactly when the rules in it are right.
 */
module AcceptedRules {
  import opened Wrappers
  import opened Keys
  import opened Squads
  import opened Chain
  import opened Lifecycle
  import opened Describe
  import opened Verify
  import opened ActionLists
  import opened SettingsSoundness
  import opened AcceptedChanges
  import P = LifecycleProofs
  import W = Walks

  // ---- the spending-limit change ----

  /** A list that may move no key, lock or threshold is of rules alone. */
  lemma {:induction false} RulesAlone(raw: seq<SettingsAction>, settings: Key, e: ExpectedSettings)
    requires forall x :: x in DescribeActions(raw, settings) ==> Permitted(x, e)
    requires e.setTimeLock.None? && e.changeThreshold.None?
    requires Count(DescribeActions(raw, settings), Adding) == 0
    requires Count(DescribeActions(raw, settings), Removing) == 0
    ensures var d := DescribeActions(raw, settings);
            |raw| == Count(d, Creating) + Count(d, Updating) + Count(d, Dropping)
  {
    if raw != [] {
      var d := DescribeActions(raw, settings);
      assert d[0] in d && d[1..] == DescribeActions(raw[1..], settings);
      forall x | x in d[1..] ensures x in d {}
      CountHead(raw, settings, Adding);
      CountHead(raw, settings, Removing);
      CountHead(raw, settings, Creating);
      CountHead(raw, settings, Updating);
      CountHead(raw, settings, Dropping);
      RulesAlone(raw[1..], settings, e);
    }
  }

  /** What the backend's row remembers of a limit change: the seed it made, or that the limit is gone. */
  function Limited(s: System, plan: W.Plan, after: Account): System {
    s.(account := after,
       limitSeed := if plan.creating then Some(s.account.lastSeed + 1)
                    else if plan.removing then None else s.limitSeed)
  }

  /** The rule made is a limit of the primary's, in place of the one taken away if any; what is rewritten is right. */
  ghost predicate LimitRight(s: System, raw: seq<SettingsAction>, plan: W.Plan)
    requires PoliciesOk(s)
  {
    && (plan.creating ==> (s.limitSeed.Some? <==> plan.removing)
                          && forall p :: p in Made(raw) ==> IsLimitPolicy(p, s.primary))
    && (plan.removing ==> s.limitSeed.Some?
                          && forall k :: PolicyRemove(k) in raw ==> k == PolicyAt(s, s.limitSeed.value))
    && (!plan.creating && !plan.removing ==> RulesRight(s, raw, s.primary, s.approval))
  }

  lemma MakingKeepsIff(s: System, x: SettingsAction, plan: W.Plan, t: System)
    requires PoliciesOk(s) && plan.creating && !plan.removing
    requires x.PolicyCreate? && Apply(s.account, x).Ok? && t == Limited(s, plan, Apply(s.account, x).value)
    ensures PoliciesOk(t) <==> LimitRight(s, [x], plan)
  {
    var p := Policy(x.creation, x.createSigners, x.createThreshold, x.createTimeLock);
    assert Made([x]) == [p];
    if s.limitSeed.Some? { assert PolicyAt(s, s.limitSeed.value) in t.account.policies; }
  }

  lemma DroppingKeepsIff(s: System, x: SettingsAction, plan: W.Plan, t: System)
    requires PoliciesOk(s) && plan.removing && !plan.creating
    requires x.PolicyRemove? && Apply(s.account, x).Ok? && t == Limited(s, plan, Apply(s.account, x).value)
    ensures PoliciesOk(t) <==> LimitRight(s, [x], plan)
  {
    assert x in [x];
  }

  /** A rule made and one taken away, the one made included. */
  lemma ReplacedIff(s: System, p: Policy, gone: Key, t: System)
    requires PoliciesOk(s) && t.limitSeed == Some(s.account.lastSeed + 1)
    requires var made := PolicyAt(s, s.account.lastSeed + 1);
             && (gone == made || gone in s.account.policies)
             && t == s.(account := t.account, limitSeed := t.limitSeed)
             && t.account == s.account.(lastSeed := s.account.lastSeed + 1,
                                        policies := s.account.policies[made := p] - {gone})
    ensures PoliciesOk(t) <==>
            s.limitSeed.Some? && IsLimitPolicy(p, s.primary) && gone == PolicyAt(s, s.limitSeed.value)
  {
    if s.limitSeed.Some? && gone != PolicyAt(s, s.limitSeed.value) {
      assert PolicyAt(s, s.limitSeed.value) in t.account.policies;
    }
  }

  /** Making a rule and taking one away, in either order. */
  lemma ReplacingKeepsIff(s: System, raw: seq<SettingsAction>, make: SettingsAction, drop: SettingsAction,
                          plan: W.Plan, t: System)
    requires PoliciesOk(s) && plan.creating && plan.removing
    requires make.PolicyCreate? && drop.PolicyRemove? && (raw == [make, drop] || raw == [drop, make])
    requires ApplyAll(s.account, raw).Ok? && t == Limited(s, plan, ApplyAll(s.account, raw).value)
    ensures PoliciesOk(t) <==> LimitRight(s, raw, plan)
  {
    var p := Policy(make.creation, make.createSigners, make.createThreshold, make.createTimeLock);
    P.ApplyTwo(s.account, raw[0], raw[1]);
    assert t.account.policies == s.account.policies[PolicyAt(s, s.account.lastSeed + 1) := p] - {drop.removed};
    ReplacedIff(s, p, drop.removed, t);
    MadeTwo(raw[0], raw[1]);
    assert Made([make]) == [p] && Made([drop]) == [];
    assert drop in raw;
  }

  lemma OneRuleKeepsIff(s: System, raw: seq<SettingsAction>, settings: Key, plan: W.Plan, t: System)
    requires PoliciesOk(s) && |raw| == 1 && ApplyAll(s.account, raw).Ok?
    requires Count(DescribeActions(raw, settings), Creating) == W.OneIf(plan.creating)
    requires Count(DescribeActions(raw, settings), Dropping) == W.OneIf(plan.removing)
    requires (plan.creating || plan.removing) && t == Limited(s, plan, ApplyAll(s.account, raw).value)
    ensures PoliciesOk(t) <==> LimitRight(s, raw, plan)
  {
    CountHead(raw, settings, Creating);
    CountHead(raw, settings, Dropping);
    assert raw == [raw[0]];
    ApplyOne(s.account, raw[0]);
    if plan.creating { MakingKeepsIff(s, raw[0], plan, t); } else { DroppingKeepsIff(s, raw[0], plan, t); }
  }

  lemma TwoRulesKeepIff(s: System, raw: seq<SettingsAction>, settings: Key, plan: W.Plan, t: System)
    requires PoliciesOk(s) && |raw| == 2 && ApplyAll(s.account, raw).Ok? && plan.creating && plan.removing
    requires Count(DescribeActions(raw, settings), Creating) == 1
    requires Count(DescribeActions(raw, settings), Dropping) == 1
    requires t == Limited(s, plan, ApplyAll(s.account, raw).value)
    ensures PoliciesOk(t) <==> LimitRight(s, raw, plan)
  {
    CountHead(raw, settings, Creating);
    CountHead(raw, settings, Dropping);
    CountHead(raw[1..], settings, Creating);
    CountHead(raw[1..], settings, Dropping);
    assert raw == [raw[0], raw[1]];
    if raw[0].PolicyCreate? {
      ReplacingKeepsIff(s, raw, raw[0], raw[1], plan, t);
    } else {
      ReplacingKeepsIff(s, raw, raw[1], raw[0], plan, t);
    }
  }

  /**
   * A limit change the device accepts keeps the Account well formed exactly when the
   * one rule it makes, takes away or rewrites is the limit's own and of its shape, or
   * it rewrites a rule into itself.
   */
  lemma AcceptedLimitChangeKeepsIff(s: System, raw: seq<SettingsAction>, settings: Key, plan: W.Plan, device: W.Device)
    requires WellFormed(s)
    requires Accepts(DescribeActions(raw, settings), W.Bounds(W.LimitChange, plan, device))
    requires Execute(s.account, raw).Ok?
    ensures WellFormed(Limited(s, plan, Execute(s.account, raw).value)) <==> LimitRight(s, raw, plan)
  {
    var e, t := W.Bounds(W.LimitChange, plan, device), Limited(s, plan, Execute(s.account, raw).value);
    AcceptedMovesNoSigner(s.account, raw, settings, e);
    P.SignersUnmoved(s, t);
    RulesAlone(raw, settings, e);
    if !plan.creating && !plan.removing {
      RulesRewritten(s.account, raw, settings, e);
      SettingsStand(s.account, raw);
      PoliciesKeptIff(s, raw, settings, t);
    } else if |raw| == 1 {
      OneRuleKeepsIff(s, raw, settings, plan, t);
    } else {
      TwoRulesKeepIff(s, raw, settings, plan, t);
    }
  }

  // ---- provisioning ----

  /** What the backend's row remembers of provisioning: the two seeds it made. */
  function Provisioned(s: System, after: Account): System {
    s.(account := after, limitSeed := Some(s.account.lastSeed + 1), aboveSeed := Some(s.account.lastSeed + 2))
  }

  /**
   * A provisioning change the device accepts keeps the Account well formed exactly when
   * there were no rules, and the two it makes are a limit of the primary's and the
   * above-limit rule, in that order.
   */
  lemma AcceptedProvisioningKeepsIff(s: System, raw: seq<SettingsAction>, settings: Key, plan: W.Plan,
                                     device: W.Device)
    requires WellFormed(s)
    requires Accepts(DescribeActions(raw, settings), W.Bounds(W.Provisioning, plan, device))
    requires Execute(s.account, raw).Ok?
    ensures |Made(raw)| == 2
    ensures WellFormed(Provisioned(s, Execute(s.account, raw).value)) <==>
            && s.limitSeed.None? && s.aboveSeed.None?
            && IsLimitPolicy(Made(raw)[0], s.primary) && Made(raw)[1] == AboveLimitPolicy(s.primary, s.approval)
  {
    var after := Execute(s.account, raw).value;
    AcceptedMovesNoSigner(s.account, raw, settings, W.Bounds(W.Provisioning, plan, device));
    P.SignersUnmoved(s, Provisioned(s, after));
    ProvisionedPoliciesIff(s, Made(raw), Provisioned(s, after));
  }

  lemma ProvisionedPoliciesIff(s: System, made: seq<Policy>, t: System)
    requires PoliciesOk(s) && |made| == 2 && RulesOnlyMade(s.account, t.account, made)
    requires t == Provisioned(s, t.account)
    ensures PoliciesOk(t) <==>
            && s.limitSeed.None? && s.aboveSeed.None?
            && IsLimitPolicy(made[0], s.primary) && made[1] == AboveLimitPolicy(s.primary, s.approval)
  {
    var first, second := PolicyAt(s, s.account.lastSeed + 1), PolicyAt(s, s.account.lastSeed + 2);
    assert forall k :: MadeSince(s.account, t.account, k) <==> k == first || k == second;
    if s.limitSeed.Some? { assert !MadeSince(s.account, t.account, PolicyAt(s, s.limitSeed.value)); }
    if s.aboveSeed.Some? { assert !MadeSince(s.account, t.account, PolicyAt(s, s.aboveSeed.value)); }
  }
}
