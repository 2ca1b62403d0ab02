/**
 * The on-chain Account as the program keeps it, and what executing an action
 * list does to it.
 *
 * Every policy carries its own copy of its signers; nothing here consults the
 * Settings when a policy is written.
 */
module Chain {
  import opened Wrappers
  import opened Keys
  import opened Squads

  datatype Policy = Policy(payload: Payload, signers: seq<Signer>, threshold: nat, timeLock: nat)

  datatype Account = Account(
    settings: Key,
    signers: seq<Signer>,
    threshold: nat,
    timeLock: nat,
    /** The last policy seed assigned. It never moves back. */
    lastSeed: nat,
    policies: map<Key, Policy>)

  datatype ChainError =
    DuplicateSigner | NotASigner | InvalidThreshold | InvalidPolicySeed | NoSuchPolicy | NotModelled

  predicate Names(signers: seq<Signer>, key: Key) {
    exists s :: s in signers && s.key == key
  }

  function Without(signers: seq<Signer>, key: Key): (r: seq<Signer>)
    ensures forall s :: s in r <==> s in signers && s.key != key
  {
    if signers == [] then []
    else
      assert forall s :: s in signers <==> s == signers[0] || s in signers[1..];
      (if signers[0].key == key then [] else [signers[0]]) + Without(signers[1..], key)
  }

  /** How many signers hold Vote, which is what a threshold is measured in. */
  function Voters(signers: seq<Signer>): nat {
    if signers == [] then 0
    else (if Has(signers[0].mask, VOTE) then 1 else 0) + Voters(signers[1..])
  }

  function Apply(a: Account, action: SettingsAction): Result<Account, ChainError> {
    match action
    case AddSigner(s) =>
      if Names(a.signers, s.key) then Err(DuplicateSigner)
      else Ok(a.(signers := a.signers + [s]))
    case RemoveSigner(k) =>
      if Names(a.signers, k) then Ok(a.(signers := Without(a.signers, k)))
      else Err(NotASigner)
    case SetTimeLock(seconds) => Ok(a.(timeLock := seconds))
    case ChangeThreshold(n) => Ok(a.(threshold := n))
    case PolicyCreate(seed, payload, signers, threshold, timeLock) =>
      if seed != a.lastSeed + 1 then Err(InvalidPolicySeed)
      else Ok(a.(lastSeed := seed,
                 policies := a.policies[PolicyAddress(a.settings, seed) :=
                     Policy(payload, signers, threshold, timeLock)]))
    case PolicyUpdate(policy, payload, signers, threshold, timeLock) =>
      if policy !in a.policies then Err(NoSuchPolicy)
      else Ok(a.(policies := a.policies[policy := Policy(payload, signers, threshold, timeLock)]))
    case PolicyRemove(policy) =>
      if policy !in a.policies then Err(NoSuchPolicy)
      else Ok(a.(policies := a.policies - {policy}))
    case OtherAction(_) => Err(NotModelled)
  }

  function ApplyAll(a: Account, actions: seq<SettingsAction>): Result<Account, ChainError>
    decreases |actions|
  {
    if actions == [] then Ok(a)
    else
      match Apply(a, actions[0])
      case Err(e) => Err(e)
      case Ok(next) => ApplyAll(next, actions[1..])
  }

  /** The whole list or nothing, and never an Account its own voters cannot move. */
  function Execute(a: Account, actions: seq<SettingsAction>): (r: Result<Account, ChainError>)
    ensures r.Ok? ==> ApplyAll(a, actions) == r && Voters(r.value.signers) >= r.value.threshold
  {
    match ApplyAll(a, actions)
    case Err(e) => Err(e)
    case Ok(after) =>
      if Voters(after.signers) < after.threshold then Err(InvalidThreshold) else Ok(after)
  }

  // ---- facts about signer lists ----

  predicate Distinct(signers: seq<Signer>) {
    forall i, j :: 0 <= i < j < |signers| ==> signers[i].key != signers[j].key
  }

  lemma {:induction false} WithoutKeepsDistinct(signers: seq<Signer>, key: Key)
    requires Distinct(signers)
    ensures Distinct(Without(signers, key))
    ensures |Without(signers, key)| == if Names(signers, key) then |signers| - 1 else |signers|
  {
    if signers != [] {
      var rest := signers[1..];
      WithoutKeepsDistinct(rest, key);
      assert forall s :: s in signers <==> s == signers[0] || s in rest;
      if signers[0].key == key {
        assert signers[0] in signers;
        assert !Names(rest, key);
      } else {
        assert Names(signers, key) <==> Names(rest, key);
        var kept := Without(rest, key);
        assert forall s :: s in kept ==> s.key != signers[0].key;
        forall i, j | 0 <= i < j < |[signers[0]] + kept|
          ensures ([signers[0]] + kept)[i].key != ([signers[0]] + kept)[j].key
        {
          assert kept[j - 1] in kept;
        }
      }
    }
  }

  lemma {:induction false} VotersAppend(a: seq<Signer>, b: seq<Signer>)
    ensures Voters(a + b) == Voters(a) + Voters(b)
  {
    if a == [] {
      assert a + b == b;
    } else {
      assert (a + b)[1..] == a[1..] + b;
      VotersAppend(a[1..], b);
    }
  }

  lemma {:induction false} EveryoneVotes(signers: seq<Signer>)
    requires forall s :: s in signers ==> Has(s.mask, VOTE)
    ensures Voters(signers) == |signers|
  {
    if signers != [] {
      assert signers[0] in signers;
      forall s | s in signers[1..] ensures Has(s.mask, VOTE) {
        assert s in signers;
      }
      EveryoneVotes(signers[1..]);
    }
  }

  /** A threshold is met by votes alone: all the signers count exactly when all of them hold Vote, the second bit. */
  lemma {:induction false} AllCountIff(signers: seq<Signer>)
    ensures Voters(signers) <= |signers|
    ensures Voters(signers) == |signers| <==> forall i :: 0 <= i < |signers| ==> signers[i].mask & 2 == 2
  {
    if signers != [] {
      AllCountIff(signers[1..]);
      forall i | 1 <= i < |signers| ensures signers[i] == signers[1..][i - 1] {}
    }
  }

  lemma ApplyOne(a: Account, x: SettingsAction)
    ensures ApplyAll(a, [x]) == Apply(a, x)
  {
    if Apply(a, x).Ok? {
      assert [x][1..] == [];
    }
  }

}
