/**
 * What a list of settings actions does to an Account, whoever wrote it and whatever
 * else is in it: the keys it moves and the rules it touches.
 */
module ActionLists {
  import opened Keys
  import opened Squads
  import opened Chain
  import opened Describe
  import opened Verify

  // ---- keys ----

  ghost function KeySet(signers: seq<Signer>): set<Key> {
    set x | x in signers :: x.key
  }

  /** The keys an action list names for adding, and for removing. */
  function Added(actions: seq<SettingsAction>): set<Key> {
    if actions == [] then {}
    else (if actions[0].AddSigner? then {actions[0].newSigner.key} else {}) + Added(actions[1..])
  }

  function Removed(actions: seq<SettingsAction>): set<Key> {
    if actions == [] then {}
    else (if actions[0].RemoveSigner? then {actions[0].oldSigner} else {}) + Removed(actions[1..])
  }

  lemma CountHead(raw: seq<SettingsAction>, settings: Key, kind: Kind)
    requires raw != []
    ensures Count(DescribeActions(raw, settings), kind)
            == (if KindOf(DescribeAction(raw[0], settings)) == kind then 1 else 0)
             + Count(DescribeActions(raw[1..], settings), kind)
  {
    assert DescribeActions(raw, settings)[1..] == DescribeActions(raw[1..], settings);
  }

  /** A list names no more keys than it has actions that name them. */
  lemma {:induction false} OneEach(raw: seq<SettingsAction>, settings: Key)
    ensures |Added(raw)| <= Count(DescribeActions(raw, settings), Adding)
    ensures |Removed(raw)| <= Count(DescribeActions(raw, settings), Removing)
  {
    if raw != [] {
      CountHead(raw, settings, Adding);
      CountHead(raw, settings, Removing);
      OneEach(raw[1..], settings);
    }
  }

  /** With no key both added and removed, the signer set ends less what was removed and plus what was added. */
  lemma {:induction false} SignersMoved(a: Account, raw: seq<SettingsAction>)
    requires ApplyAll(a, raw).Ok? && Added(raw) !! Removed(raw)
    ensures KeySet(ApplyAll(a, raw).value.signers) == (KeySet(a.signers) - Removed(raw)) + Added(raw)
    decreases |raw|
  {
    if raw != [] {
      var next := Apply(a, raw[0]).value;
      SignersMoved(next, raw[1..]);
      match raw[0]
      case AddSigner(x) =>
        assert next.signers == a.signers + [x];
        assert KeySet(next.signers) == KeySet(a.signers) + {x.key} by {
          assert forall s :: s in next.signers <==> s in a.signers || s == x;
        }
      case RemoveSigner(k) =>
        assert KeySet(next.signers) == KeySet(a.signers) - {k};
      case _ =>
    }
  }

  /** A change that names no key to add or remove, and allows none, leaves the signers exactly as they were. */
  lemma {:induction false} SignersStand(a: Account, raw: seq<SettingsAction>, settings: Key)
    requires ApplyAll(a, raw).Ok?
    requires Count(DescribeActions(raw, settings), Adding) == 0
    requires Count(DescribeActions(raw, settings), Removing) == 0
    ensures ApplyAll(a, raw).value.signers == a.signers
    decreases |raw|
  {
    if raw != [] {
      CountHead(raw, settings, Adding);
      CountHead(raw, settings, Removing);
      SignersStand(Apply(a, raw[0]).value, raw[1..], settings);
    }
  }

  /** A signer is there afterwards if the list left it there or added it as it is. */
  lemma {:induction false} SignersLeft(a: Account, raw: seq<SettingsAction>, x: Signer)
    requires ApplyAll(a, raw).Ok? && Added(raw) !! Removed(raw)
    ensures x in ApplyAll(a, raw).value.signers <==>
            (x in a.signers && x.key !in Removed(raw)) || AddSigner(x) in raw
    decreases |raw|
  {
    if raw != [] {
      SignersLeft(Apply(a, raw[0]).value, raw[1..], x);
      assert AddSigner(x) in raw <==> AddSigner(x) == raw[0] || AddSigner(x) in raw[1..];
    }
  }

  lemma AllLeft(a: Account, raw: seq<SettingsAction>)
    requires ApplyAll(a, raw).Ok? && Added(raw) !! Removed(raw)
    ensures forall x :: x in ApplyAll(a, raw).value.signers <==>
              (x in a.signers && x.key !in Removed(raw)) || AddSigner(x) in raw
  {
    forall x ensures x in ApplyAll(a, raw).value.signers <==>
                     (x in a.signers && x.key !in Removed(raw)) || AddSigner(x) in raw
    {
      SignersLeft(a, raw, x);
    }
  }

  lemma {:induction false} StaysDistinct(a: Account, raw: seq<SettingsAction>)
    requires ApplyAll(a, raw).Ok? && Distinct(a.signers)
    ensures Distinct(ApplyAll(a, raw).value.signers)
    decreases |raw|
  {
    if raw != [] {
      if raw[0].RemoveSigner? { WithoutKeepsDistinct(a.signers, raw[0].oldSigner); }
      assert forall i :: 0 <= i < |a.signers| ==> a.signers[i] in a.signers;
      StaysDistinct(Apply(a, raw[0]).value, raw[1..]);
    }
  }

  /** A key the list adds and never removes was not there before. */
  lemma {:induction false} AddedIsNew(a: Account, raw: seq<SettingsAction>, key: Key)
    requires ApplyAll(a, raw).Ok? && Added(raw) !! Removed(raw) && key in Added(raw)
    ensures !Names(a.signers, key)
    decreases |raw|
  {
    if !(raw[0].AddSigner? && raw[0].newSigner.key == key) {
      var next := Apply(a, raw[0]).value;
      AddedIsNew(next, raw[1..], key);
      assert forall x :: x in a.signers && x.key == key ==> x in next.signers;
    }
  }

  lemma {:induction false} AddedSigner(raw: seq<SettingsAction>, key: Key) returns (x: Signer)
    requires key in Added(raw)
    ensures AddSigner(x) in raw && x.key == key
  {
    if raw[0].AddSigner? && raw[0].newSigner.key == key {
      x := raw[0].newSigner;
    } else {
      x := AddedSigner(raw[1..], key);
    }
  }

  lemma {:induction false} AddedKeys(raw: seq<SettingsAction>, x: Signer)
    requires AddSigner(x) in raw
    ensures x.key in Added(raw)
  {
    if raw[0] != AddSigner(x) { AddedKeys(raw[1..], x); }
  }

  lemma OnlyOne(keys: set<Key>, key: Key)
    requires key in keys && |keys| <= 1
    ensures keys == {key}
  {
    assert |keys - {key}| == |keys| - 1;
  }

  /** One key both taken out and put in: put back if it was there, and otherwise never there. */
  lemma {:induction false} OneKeyBothWays(a: Account, raw: seq<SettingsAction>, settings: Key, key: Key)
    requires ApplyAll(a, raw).Ok? && Added(raw) == {key} == Removed(raw)
    requires Count(DescribeActions(raw, settings), Adding) <= 1
    requires Count(DescribeActions(raw, settings), Removing) <= 1
    ensures forall x :: x in ApplyAll(a, raw).value.signers <==>
              if Names(a.signers, key) then (x in a.signers && x.key != key) || AddSigner(x) in raw
              else x in a.signers
    decreases |raw|
  {
    CountHead(raw, settings, Adding);
    CountHead(raw, settings, Removing);
    OneEach(raw[1..], settings);
    var next := Apply(a, raw[0]).value;
    forall x ensures AddSigner(x) in raw <==> AddSigner(x) == raw[0] || AddSigner(x) in raw[1..] {}
    if raw[0].AddSigner? || raw[0].RemoveSigner? {
      AllLeft(next, raw[1..]);
      forall x | AddSigner(x) in raw[1..] ensures x.key in Added(raw[1..]) { AddedKeys(raw[1..], x); }
    } else {
      OneKeyBothWays(next, raw[1..], settings, key);
    }
  }

  lemma SameKeySwapped(a: Account, raw: seq<SettingsAction>, settings: Key, key: Key)
    requires ApplyAll(a, raw).Ok? && Added(raw) == {key} == Removed(raw)
    requires Count(DescribeActions(raw, settings), Adding) <= 1
    requires Count(DescribeActions(raw, settings), Removing) <= 1
    ensures KeySet(ApplyAll(a, raw).value.signers) == KeySet(a.signers)
  {
    OneKeyBothWays(a, raw, settings, key);
    forall x | AddSigner(x) in raw ensures x.key == key { AddedKeys(raw, x); }
    var z := AddedSigner(raw, key);
    var after := ApplyAll(a, raw).value;
    if Names(a.signers, key) {
      assert z in after.signers;
      assert forall k :: k in KeySet(a.signers) && k != key ==> k in KeySet(after.signers);
    }
  }

  /** Whatever joined was added, and whatever left was removed. */
  lemma {:induction false} KeysMoved(a: Account, raw: seq<SettingsAction>)
    requires ApplyAll(a, raw).Ok?
    ensures KeySet(ApplyAll(a, raw).value.signers) - KeySet(a.signers) <= Added(raw)
    ensures KeySet(a.signers) - KeySet(ApplyAll(a, raw).value.signers) <= Removed(raw)
    decreases |raw|
  {
    if raw != [] {
      var next := Apply(a, raw[0]).value;
      KeysMoved(next, raw[1..]);
      match raw[0]
      case AddSigner(x) =>
        assert forall s :: s in next.signers <==> s in a.signers || s == x;
      case _ =>
    }
  }

  // ---- rules ----

  lemma {:induction false} SettingsStand(a: Account, raw: seq<SettingsAction>)
    requires ApplyAll(a, raw).Ok?
    ensures ApplyAll(a, raw).value.settings == a.settings
    decreases |raw|
  {
    if raw != [] { SettingsStand(Apply(a, raw[0]).value, raw[1..]); }
  }

  /** The rules that are not as they were: made, taken away or rewritten. */
  ghost function Touched(before: Account, after: Account): set<Key> {
    set k | k in before.policies.Keys + after.policies.Keys
            && !(k in before.policies && k in after.policies && before.policies[k] == after.policies[k])
  }

  lemma {:induction false} TouchesAtMost(a: Account, raw: seq<SettingsAction>, settings: Key)
    requires ApplyAll(a, raw).Ok?
    ensures var d := DescribeActions(raw, settings);
            |Touched(a, ApplyAll(a, raw).value)| <= Count(d, Creating) + Count(d, Updating) + Count(d, Dropping)
    decreases |raw|
  {
    var after := ApplyAll(a, raw).value;
    if raw == [] {
      assert Touched(a, after) == {};
    } else {
      var next := Apply(a, raw[0]).value;
      CountHead(raw, settings, Creating);
      CountHead(raw, settings, Updating);
      CountHead(raw, settings, Dropping);
      TouchesAtMost(next, raw[1..], settings);
      TouchesOne(a, raw[0], settings);
      assert Touched(a, after) <= Touched(a, next) + Touched(next, after);
      AtMostBoth(Touched(a, after), Touched(a, next), Touched(next, after));
    }
  }

  lemma TouchesOne(a: Account, x: SettingsAction, settings: Key)
    requires Apply(a, x).Ok?
    ensures var kind := KindOf(DescribeAction(x, settings));
            |Touched(a, Apply(a, x).value)|
            <= if kind == Creating || kind == Updating || kind == Dropping then 1 else 0
  {
    var touched := Touched(a, Apply(a, x).value);
    match x
    case PolicyCreate(seed, _, _, _, _) => Fewer(touched, {PolicyAddress(a.settings, seed)});
    case PolicyUpdate(policy, _, _, _, _) => Fewer(touched, {policy});
    case PolicyRemove(policy) => Fewer(touched, {policy});
    case _ => Fewer(touched, {});
  }

  lemma Fewer(part: set<Key>, whole: set<Key>)
    requires part <= whole
    ensures |part| <= |whole|
  {
    assert whole == part + (whole - part);
  }

  lemma AtMostBoth(whole: set<Key>, a: set<Key>, b: set<Key>)
    requires whole <= a + b
    ensures |whole| <= |a| + |b|
  {
    Fewer(whole, a + b);
    Fewer(b - a, b);
    assert a + b == a + (b - a);
  }

  /** The rule an action makes, if it makes one. */
  function MadeBy(x: SettingsAction): seq<Policy> {
    match x
    case PolicyCreate(_, payload, signers, threshold, timeLock) => [Policy(payload, signers, threshold, timeLock)]
    case _ => []
  }

  /** The rules a list makes, in order. */
  function Made(raw: seq<SettingsAction>): seq<Policy> {
    if raw == [] then [] else MadeBy(raw[0]) + Made(raw[1..])
  }

  lemma MadeTwo(x: SettingsAction, y: SettingsAction)
    ensures Made([x, y]) == Made([x]) + Made([y])
  {
    assert [x, y][1..] == [y];
  }

  /** Rules filed at the seeds after one, in order. */
  function Filed(policies: map<Key, Policy>, settings: Key, seed: nat, made: seq<Policy>): map<Key, Policy>
    decreases |made|
  {
    if made == [] then policies
    else Filed(policies[PolicyAddress(settings, seed + 1) := made[0]], settings, seed + 1, made[1..])
  }

  lemma {:induction false} MadeIsCount(raw: seq<SettingsAction>, settings: Key)
    ensures |Made(raw)| == Count(DescribeActions(raw, settings), Creating)
  {
    if raw != [] {
      CountHead(raw, settings, Creating);
      MadeIsCount(raw[1..], settings);
    }
  }

  lemma FilesOne(a: Account, x: SettingsAction, rest: seq<Policy>)
    requires Apply(a, x).Ok? && !x.PolicyUpdate? && !x.PolicyRemove?
    ensures var next := Apply(a, x).value;
            && Filed(next.policies, next.settings, next.lastSeed, rest)
               == Filed(a.policies, a.settings, a.lastSeed, MadeBy(x) + rest)
            && next.settings == a.settings && next.lastSeed == a.lastSeed + |MadeBy(x)|
  {
    assert x.PolicyCreate? ==> (MadeBy(x) + rest)[1..] == rest;
    assert !x.PolicyCreate? ==> MadeBy(x) + rest == rest;
  }

  /** A list that rewrites no rule and drops none only files what it makes. */
  lemma {:induction false} OnlyFiles(a: Account, raw: seq<SettingsAction>)
    requires ApplyAll(a, raw).Ok?
    requires forall x :: x in raw ==> !x.PolicyUpdate? && !x.PolicyRemove?
    ensures var after := ApplyAll(a, raw).value;
            && after.policies == Filed(a.policies, a.settings, a.lastSeed, Made(raw))
            && after.settings == a.settings && after.lastSeed == a.lastSeed + |Made(raw)|
    decreases |raw|
  {
    if raw != [] {
      assert raw[0] in raw;
      forall x | x in raw[1..] ensures x in raw {}
      FilesOne(a, raw[0], Made(raw[1..]));
      OnlyFiles(Apply(a, raw[0]).value, raw[1..]);
    }
  }

  lemma {:induction false} NoneOf(raw: seq<SettingsAction>, settings: Key, kind: Kind)
    requires Count(DescribeActions(raw, settings), kind) == 0
    ensures forall x :: x in raw ==> KindOf(DescribeAction(x, settings)) != kind
  {
    if raw != [] {
      CountHead(raw, settings, kind);
      NoneOf(raw[1..], settings, kind);
    }
  }

  /** A rule made between the two: at one of the seeds the counter passed. */
  predicate MadeSince(before: Account, after: Account, key: Key) {
    key.PolicyAddress? && key.settings == before.settings && before.lastSeed < key.policySeed <= after.lastSeed
  }

  /** The rules made are there as they were made; those there before are all there still, as they were. */
  ghost predicate RulesOnlyMade(before: Account, after: Account, made: seq<Policy>) {
    && after.settings == before.settings && after.lastSeed == before.lastSeed + |made|
    && (forall k :: MadeSince(before, after, k) ==>
          k in after.policies && after.policies[k] == made[k.policySeed - before.lastSeed - 1])
    && (forall k :: !MadeSince(before, after, k) ==>
          (k in after.policies <==> k in before.policies)
          && (k in before.policies ==> after.policies[k] == before.policies[k]))
  }

  lemma {:induction false} FiledAt(policies: map<Key, Policy>, settings: Key, seed: nat, made: seq<Policy>, key: Key)
    ensures var filed := Filed(policies, settings, seed, made);
            if key.PolicyAddress? && key.settings == settings && seed < key.policySeed <= seed + |made| then
              key in filed && filed[key] == made[key.policySeed - seed - 1]
            else (key in filed <==> key in policies) && (key in policies ==> filed[key] == policies[key])
    decreases |made|
  {
    if made != [] {
      FiledAt(policies[PolicyAddress(settings, seed + 1) := made[0]], settings, seed + 1, made[1..], key);
    }
  }

  lemma FiledIsMade(before: Account, after: Account, made: seq<Policy>)
    requires after.policies == Filed(before.policies, before.settings, before.lastSeed, made)
    requires after.settings == before.settings && after.lastSeed == before.lastSeed + |made|
    ensures RulesOnlyMade(before, after, made)
  {
    forall k { FiledAt(before.policies, before.settings, before.lastSeed, made, k); }
  }

  /** A list that rewrites no rule and drops none only makes rules. */
  lemma MakesOnlyRules(a: Account, raw: seq<SettingsAction>, settings: Key)
    requires ApplyAll(a, raw).Ok?
    requires Count(DescribeActions(raw, settings), Updating) == 0
    requires Count(DescribeActions(raw, settings), Dropping) == 0
    ensures RulesOnlyMade(a, ApplyAll(a, raw).value, Made(raw))
  {
    NoneOf(raw, settings, Updating);
    NoneOf(raw, settings, Dropping);
    assert forall x :: x in raw ==> !x.PolicyUpdate? && !x.PolicyRemove?;
    OnlyFiles(a, raw);
    FiledIsMade(a, ApplyAll(a, raw).value, Made(raw));
  }
}
