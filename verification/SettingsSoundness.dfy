/**
 * What the device accepted is what the chain can do: executing an accepted
 * change moves no key, rule, lock or threshold beyond what was granted.
 */
module SettingsSoundness {
  import opened Wrappers
  import opened Keys
  import opened Squads
  import opened Chain
  import opened Describe
  import opened Verify
  import opened ActionLists

  /** Which keys an accepted list can name at all. */
  lemma {:induction false} NamedOnly(raw: seq<SettingsAction>, settings: Key, e: ExpectedSettings)
    requires forall x :: x in DescribeActions(raw, settings) ==> Permitted(x, e)
    ensures e.addSigners.Some? ==> forall k :: k in Added(raw) ==> k in e.addSigners.value
    ensures e.removeSigners.Some? ==> forall k :: k in Removed(raw) ==> k in e.removeSigners.value
    ensures Added(raw) == {} <==> Count(DescribeActions(raw, settings), Adding) == 0
    ensures Removed(raw) == {} <==> Count(DescribeActions(raw, settings), Removing) == 0
  {
    if raw != [] {
      var d := DescribeActions(raw, settings);
      assert d[0] in d;
      forall x | x in DescribeActions(raw[1..], settings) ensures Permitted(x, e) {
        assert d[1..] == DescribeActions(raw[1..], settings);
        assert x in d[1..];
      }
      NamedOnly(raw[1..], settings, e);
      CountHead(raw, settings, Adding);
      CountHead(raw, settings, Removing);
    }
  }

  /** A rule the change rewrote names none of the keys it retires; the rest stand as they were. */
  ghost predicate RulesKept(before: Account, after: Account, e: ExpectedSettings) {
    forall k :: k in before.policies && k in after.policies ==>
      after.policies[k] == before.policies[k]
      || forall r :: r in Retired(e) ==> !Names(after.policies[k].signers, r)
  }

  lemma OneRule(a: Account, x: SettingsAction, settings: Key, e: ExpectedSettings)
    requires Apply(a, x).Ok? && Permitted(DescribeAction(x, settings), e) && !x.PolicyCreate? && !x.PolicyRemove?
    ensures RulesKept(a, Apply(a, x).value, e)
    ensures Apply(a, x).value.policies.Keys == a.policies.Keys
  {
  }

  lemma {:induction false} RulesRewritten(a: Account, raw: seq<SettingsAction>, settings: Key, e: ExpectedSettings)
    requires ApplyAll(a, raw).Ok?
    requires forall x :: x in DescribeActions(raw, settings) ==> Permitted(x, e)
    requires Count(DescribeActions(raw, settings), Creating) == 0
    requires Count(DescribeActions(raw, settings), Dropping) == 0
    ensures RulesKept(a, ApplyAll(a, raw).value, e)
    ensures ApplyAll(a, raw).value.policies.Keys == a.policies.Keys
    decreases |raw|
  {
    if raw != [] {
      var d := DescribeActions(raw, settings);
      assert d[0] in d;
      CountHead(raw, settings, Creating);
      CountHead(raw, settings, Dropping);
      assert d[1..] == DescribeActions(raw[1..], settings);
      forall x | x in d[1..] ensures x in d {}
      var next := Apply(a, raw[0]).value;
      OneRule(a, raw[0], settings, e);
      RulesRewritten(next, raw[1..], settings, e);
    }
  }

  /** Lock and threshold move only to the values named, and the seed counter by the policies created. */
  lemma {:induction false} TermsMoved(a: Account, raw: seq<SettingsAction>, settings: Key, e: ExpectedSettings)
    requires ApplyAll(a, raw).Ok?
    requires forall x :: x in DescribeActions(raw, settings) ==> Permitted(x, e)
    ensures var after := ApplyAll(a, raw).value;
            && (after.timeLock == a.timeLock || Some(after.timeLock) == e.setTimeLock)
            && (after.threshold == a.threshold || Some(after.threshold) == e.changeThreshold)
            && after.lastSeed == a.lastSeed + Count(DescribeActions(raw, settings), Creating)
    decreases |raw|
  {
    if raw != [] {
      var d := DescribeActions(raw, settings);
      assert d[0] in d;
      CountHead(raw, settings, Creating);
      assert d[1..] == DescribeActions(raw[1..], settings);
      forall x | x in d[1..] ensures x in d {}
      TermsMoved(Apply(a, raw[0]).value, raw[1..], settings, e);
    }
  }

  /**
   * One key out and at most the named one in, or the one key out and back; no rule
   * comes, goes or, when rewritten, names the old key.
   */
  ghost predicate OneKeyMoved(before: Account, after: Account, newKey: Option<Key>, oldKey: Key) {
    && KeySet(after.signers) == (if newKey == Some(oldKey) then KeySet(before.signers)
                                 else (KeySet(before.signers) - {oldKey}) + SetOf(newKey))
    && after.threshold == before.threshold && after.timeLock == before.timeLock && after.lastSeed == before.lastSeed
    && after.policies.Keys == before.policies.Keys
    && forall k :: k in before.policies ==>
         after.policies[k] == before.policies[k] || !Names(after.policies[k].signers, oldKey)
  }

  /** What executing an accepted swap does, whatever key it was told to bring in. */
  lemma AcceptedSwap(a: Account, raw: seq<SettingsAction>, settings: Key, vault: Key, newKey: Option<Key>, oldKey: Key,
                     updates: nat)
    requires Accepts(DescribeActions(raw, settings), Swap(vault, newKey, oldKey, updates))
    requires Execute(a, raw).Ok?
    ensures OneKeyMoved(a, Execute(a, raw).value, newKey, oldKey)
    ensures |Touched(a, Execute(a, raw).value)| <= updates
  {
    var e := Swap(vault, newKey, oldKey, updates);
    NamedOnly(raw, settings, e);
    assert Added(raw) == SetOf(newKey) && Removed(raw) == {oldKey};
    if newKey == Some(oldKey) {
      SameKeySwapped(a, raw, settings, oldKey);
    } else {
      SignersMoved(a, raw);
    }
    RulesRewritten(a, raw, settings, e);
    TermsMoved(a, raw, settings, e);
    TouchesAtMost(a, raw, settings);
    var after := Execute(a, raw).value;
    assert oldKey in Retired(e);
    assert forall k :: k in a.policies ==> k in after.policies;
  }

  /**
   * What executing a change accepted with no key granted does: the signers stand, and
   * where no rule may be rewritten or dropped, the rules granted are made and no
   * other is touched.
   */
  lemma AcceptedMovesNoSigner(a: Account, raw: seq<SettingsAction>, settings: Key, e: ExpectedSettings)
    requires e.addSigners.None? && e.maxAddSigners == 0 && e.removeSigners.None? && e.maxRemoveSigners == 0
    requires e.changeThreshold.None?
    requires Accepts(DescribeActions(raw, settings), e)
    requires Execute(a, raw).Ok?
    ensures var after := Execute(a, raw).value;
            && after.signers == a.signers && after.threshold == a.threshold
            && (after.timeLock == a.timeLock || Some(after.timeLock) == e.setTimeLock)
            && after.lastSeed == a.lastSeed + e.policyCreates
            && |Touched(a, after)| <= e.policyCreates + e.policyUpdates + e.policyRemovals
            && (e.policyUpdates == 0 && e.policyRemovals == 0 ==>
                  |Made(raw)| == e.policyCreates && RulesOnlyMade(a, after, Made(raw)))
  {
    SignersStand(a, raw, settings);
    TermsMoved(a, raw, settings, e);
    TouchesAtMost(a, raw, settings);
    if e.policyUpdates == 0 && e.policyRemovals == 0 {
      MadeIsCount(raw, settings);
      MakesOnlyRules(a, raw, settings);
    }
  }
}
