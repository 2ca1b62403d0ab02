/**
 * An Account's whole life: created, then changed by the builders, each fed the
 * keys the Account currently has.
 */
module Lifecycle {
  import opened Wrappers
  import opened Keys
  import opened Squads
  import opened Builders
  import opened Chain

  /** The Account on chain beside what the backend's row remembers about it. */
  datatype System = System(
    account: Account,
    primary: Key,
    approval: Key,
    limitSeed: Option<nat>,
    aboveSeed: Option<nat>)

  datatype Intent =
    | Provision(terms: Terms, timeLock: nat)
    | CreateLimit(terms: Terms)
    | CreateAboveLimit
    | UpdateLimit(terms: Terms)
    | RemoveLimit
    | SetLock(seconds: nat)
    | AddRecovery(newKey: Key)
    | RemoveRecovery(oldKey: Key)
    | RotateRecovery(oldKey: Key, newKey: Key)
    | RotateApproval(newKey: Key)
    | RotatePrimary(newKey: Key)

  // ---- the shapes the invariant names ----

  function AboveLimitPolicy(primary: Key, approval: Key): Policy {
    Policy(
      ProgramInteractionPayload(PRIMARY_ACCOUNT_INDEX,
                                Map(k => Constraint(k, 0, 0), ABOVE_LIMIT_PROGRAM_ALLOWLIST)),
      [Signer(primary, ALL_PERMISSIONS), Signer(approval, ALL_PERMISSIONS)], 2, 0)
  }

  function LimitPolicy(terms: Terms, primary: Key): Policy {
    Policy(
      SpendingLimitPayload(terms.mint, PRIMARY_ACCOUNT_INDEX, 0, terms.period, false,
                           terms.maxPerPeriod, terms.maxPerUse, false, terms.destinations),
      [Signer(primary, ALL_PERMISSIONS)], 1, 0)
  }

  /** The terms a spending-limit policy carries, read back off its payload. */
  function ReadTerms(p: Policy): Option<Terms> {
    TermsIn(p.payload)
  }

  predicate IsLimitPolicy(p: Policy, primary: Key) {
    && ReadTerms(p).Some?
    && p == LimitPolicy(ReadTerms(p).value, primary)
    && ReadTerms(p).value.maxPerUse <= ReadTerms(p).value.maxPerPeriod
  }

  predicate IsRecovery(s: System, key: Key) {
    && key != s.primary
    && key != s.approval
    && Names(s.account.signers, key)
  }

  predicate SignersOk(s: System) {
    && Distinct(s.account.signers)
    && s.primary != s.approval
    && Signer(s.primary, ALL_PERMISSIONS) in s.account.signers
    && Signer(s.approval, ALL_PERMISSIONS) in s.account.signers
    && (forall x :: x in s.account.signers ==>
          x == Signer(s.primary, ALL_PERMISSIONS) || x == Signer(s.approval, ALL_PERMISSIONS)
          || x == Signer(x.key, RECOVERY_PERMISSIONS))
    && (exists x :: x in s.account.signers && x.key != s.primary && x.key != s.approval)
    && s.account.threshold == ACCOUNT_THRESHOLD
  }

  function PolicyAt(s: System, seed: nat): Key {
    PolicyAddress(s.account.settings, seed)
  }

  predicate PoliciesOk(s: System) {
    && (s.limitSeed.Some? ==>
          && s.limitSeed.value <= s.account.lastSeed
          && PolicyAt(s, s.limitSeed.value) in s.account.policies
          && IsLimitPolicy(s.account.policies[PolicyAt(s, s.limitSeed.value)], s.primary))
    && (s.aboveSeed.Some? ==>
          && s.aboveSeed.value <= s.account.lastSeed
          && s.limitSeed != s.aboveSeed
          && PolicyAt(s, s.aboveSeed.value) in s.account.policies
          && s.account.policies[PolicyAt(s, s.aboveSeed.value)] == AboveLimitPolicy(s.primary, s.approval))
    && (forall k :: k in s.account.policies ==>
          (s.limitSeed.Some? && k == PolicyAt(s, s.limitSeed.value))
          || (s.aboveSeed.Some? && k == PolicyAt(s, s.aboveSeed.value)))
  }

  predicate WellFormed(s: System) {
    SignersOk(s) && PoliciesOk(s)
  }

  // ---- building a change from the Account's own current keys ----

  function CurrentLimit(s: System): Option<SpendingLimit> {
    if s.limitSeed.None? || PolicyAt(s, s.limitSeed.value) !in s.account.policies then None
    else
      var key := PolicyAt(s, s.limitSeed.value);
      match ReadTerms(s.account.policies[key])
      case None => None
      // What is left of the period is not kept here; no builder reads it.
      case Some(t) => Some(SpendingLimit(key, t.mint, t.maxPerUse, t.maxPerPeriod, 0, t.period, t.destinations))
  }

  function KeysOf(signers: seq<Signer>): (r: seq<Key>)
    ensures |r| == |signers|
    ensures forall i :: 0 <= i < |r| ==> r[i] == signers[i].key
  {
    Map((x: Signer) => x.key, signers)
  }

  function RecoveryKeys(s: System): (r: seq<Key>)
    ensures forall k :: k in r <==> IsRecovery(s, k)
  {
    var others := Without(Without(s.account.signers, s.primary), s.approval);
    var keys := KeysOf(others);
    assert forall k :: k in keys <==> Names(others, k) by {
      forall k | Names(others, k) ensures k in keys {
        var x :| x in others && x.key == k;
        var i :| 0 <= i < |others| && others[i] == x;
        assert keys[i] == k;
      }
      forall k | k in keys ensures Names(others, k) {
        var i :| 0 <= i < |keys| && keys[i] == k;
        assert others[i] in others;
      }
    }
    keys
  }

  /** Who proposes: the primary, except where the primary is the key going out. */
  function ProposerOf(s: System, intent: Intent): Key {
    if intent.RotatePrimary? then s.approval else s.primary
  }

  /** A request to change this Account, whoever proposes and pays and at whatever transaction index. */
  predicate IsFor(r: Request, s: System) {
    r.addresses == Addresses(s.account.settings, Vault(s.account.settings))
  }

  function RequestFor(s: System, proposer: Key): Request {
    Request(Addresses(s.account.settings, Vault(s.account.settings)), proposer, proposer, 1)
  }

  /** The builder an intent reaches, or None where the Account gives it nothing true to be fed. */
  function ProposeAs(s: System, intent: Intent, r: Request): Option<Result<Proposal, Refusal>> {
    match intent
    case Provision(terms, timeLock) =>
      if s.limitSeed.Some? || s.aboveSeed.Some? then None
      else Some(BuildProvision(r, s.account.lastSeed + 1, s.account.lastSeed + 2, terms,
                               s.primary, s.approval, timeLock, ABOVE_LIMIT_PROGRAM_ALLOWLIST))
    case CreateLimit(terms) =>
      if s.limitSeed.Some? then None
      else Some(BuildCreateSpendingLimit(r, s.account.lastSeed + 1, terms, s.primary))
    case CreateAboveLimit =>
      if s.aboveSeed.Some? then None
      else Some(BuildCreateAboveLimit(r, s.account.lastSeed + 1, s.primary, s.approval, ABOVE_LIMIT_PROGRAM_ALLOWLIST))
    case UpdateLimit(terms) =>
      if CurrentLimit(s).None? then None
      else Some(BuildUpdateLimit(r, s.limitSeed.value, CurrentLimit(s).value, terms, s.primary, s.account.signers))
    case RemoveLimit =>
      if CurrentLimit(s).None? then None
      else Some(BuildRemoveLimit(r, s.limitSeed.value, CurrentLimit(s).value, s.account.signers))
    case SetLock(seconds) => Some(Ok(BuildSetTimeLock(r, seconds)))
    case AddRecovery(newKey) => Some(Ok(BuildAddRecovery(r, newKey)))
    case RemoveRecovery(oldKey) => Some(BuildRemoveRecovery(r, oldKey, RecoveryKeys(s)))
    case RotateRecovery(oldKey, newKey) =>
      if !IsRecovery(s, oldKey) then None
      else Some(BuildRotateRecovery(r, oldKey, newKey))
    case RotateApproval(newKey) =>
      if s.aboveSeed.None? then None
      else Some(BuildRotateApproval(r, s.approval, newKey, s.primary, s.aboveSeed.value, ABOVE_LIMIT_PROGRAM_ALLOWLIST))
    case RotatePrimary(newKey) =>
      if CurrentLimit(s).None? || s.aboveSeed.None? then None
      else Some(BuildRotatePrimary(r, s.primary, newKey, s.approval, s.account.signers,
                                   s.limitSeed.value, CurrentLimit(s).value, s.aboveSeed.value,
                                   ABOVE_LIMIT_PROGRAM_ALLOWLIST))
  }

  /** The change as its own proposer would ask for it. What it does depends on nothing else in the request. */
  function Propose(s: System, intent: Intent): Option<Result<Proposal, Refusal>> {
    ProposeAs(s, intent, RequestFor(s, ProposerOf(s, intent)))
  }

  /** Any request with this Account's addresses and the same proposer is met alike: built alike, or refused alike. */
  lemma RequestDoesNotMatter(s: System, intent: Intent, r: Request, q: Request)
    requires IsFor(r, s) && IsFor(q, s) && r.proposer == q.proposer
    ensures match (ProposeAs(s, intent, r), ProposeAs(s, intent, q))
            case (Some(Ok(a)), Some(Ok(b))) => a.policies == b.policies && ActionsOf(a) == ActionsOf(b)
            case (Some(Err(a)), Some(Err(b))) => a == b
            case (a, b) => a.None? && b.None?
  {
  }

  /** The rule an action names, if it names one: one it makes at its seed, another by its key. */
  function RuleNamed(settings: Key, action: SettingsAction): seq<Key> {
    match action
    case PolicyCreate(seed, _, _, _, _) => [PolicyAddress(settings, seed)]
    case PolicyUpdate(policy, _, _, _, _) => [policy]
    case PolicyRemove(policy) => [policy]
    case _ => []
  }

  /** The rules a list names, in the order of its actions. */
  function RulesNamed(settings: Key, actions: seq<SettingsAction>): seq<Key> {
    if actions == [] then [] else RuleNamed(settings, actions[0]) + RulesNamed(settings, actions[1..])
  }

  /** What a list names from one action on, the action itself first. */
  function NamedFrom(settings: Key, actions: seq<SettingsAction>, i: nat, rest: seq<Key>): seq<Key> {
    if i < |actions| then RuleNamed(settings, actions[i]) + rest else []
  }

  lemma TailNamed(settings: Key, actions: seq<SettingsAction>, i: nat)
    requires i <= |actions|
    ensures RulesNamed(settings, actions[i..])
         == NamedFrom(settings, actions, i, if i < |actions| then RulesNamed(settings, actions[i + 1..]) else [])
  {
    if i < |actions| { assert actions[i..][0] == actions[i] && actions[i..][1..] == actions[i + 1..]; }
  }

  lemma ListNamed(settings: Key, actions: seq<SettingsAction>)
    requires 1 <= |actions| <= 4
    ensures RulesNamed(settings, actions)
         == NamedFrom(settings, actions, 0, NamedFrom(settings, actions, 1,
            NamedFrom(settings, actions, 2, NamedFrom(settings, actions, 3, []))))
  {
    assert actions[0..] == actions;
    TailNamed(settings, actions, 0);
    if |actions| > 0 { TailNamed(settings, actions, 1); }
    if |actions| > 1 { TailNamed(settings, actions, 2); }
    if |actions| > 2 { TailNamed(settings, actions, 3); }
    if |actions| > 3 { TailNamed(settings, actions, 4); }
  }

  predicate ListsItsRules(s: System, intent: Intent, r: Request) {
    var built := ProposeAs(s, intent, r);
    built.Some? && built.value.Ok?
    ==> built.value.value.policies == RulesNamed(s.account.settings, ActionsOf(built.value.value))
  }

  /** A built change lists the rules it names, in the order its actions name them. */
  lemma PoliciesAreNamed(s: System, intent: Intent, r: Request)
    requires IsFor(r, s)
    ensures ListsItsRules(s, intent, r)
  {
    match intent
    case Provision(_, _) => ProvisionLists(s, intent, r);
    case RotatePrimary(_) => PrimaryLists(s, intent, r);
    case RotateApproval(_) => ApprovalLists(s, intent, r);
    case AddRecovery(_) => RecoveryLists(s, intent, r);
    case RemoveRecovery(_) => RecoveryLists(s, intent, r);
    case RotateRecovery(_, _) => RecoveryLists(s, intent, r);
    case _ => OneLists(s, intent, r);
  }

  lemma ProvisionLists(s: System, intent: Intent, r: Request)
    requires IsFor(r, s) && intent.Provision?
    ensures ListsItsRules(s, intent, r)
  {
    var built := ProposeAs(s, intent, r);
    if built.Some? && built.value.Ok? { ListNamed(s.account.settings, ActionsOf(built.value.value)); }
  }

  lemma PrimaryLists(s: System, intent: Intent, r: Request)
    requires IsFor(r, s) && intent.RotatePrimary?
    ensures ListsItsRules(s, intent, r)
  {
    var built := ProposeAs(s, intent, r);
    if built.Some? && built.value.Ok? { ListNamed(s.account.settings, ActionsOf(built.value.value)); }
  }

  lemma ApprovalLists(s: System, intent: Intent, r: Request)
    requires IsFor(r, s) && intent.RotateApproval?
    ensures ListsItsRules(s, intent, r)
  {
    var built := ProposeAs(s, intent, r);
    if built.Some? && built.value.Ok? { ListNamed(s.account.settings, ActionsOf(built.value.value)); }
  }

  lemma RecoveryLists(s: System, intent: Intent, r: Request)
    requires IsFor(r, s) && (intent.AddRecovery? || intent.RemoveRecovery? || intent.RotateRecovery?)
    ensures ListsItsRules(s, intent, r)
  {
    var built := ProposeAs(s, intent, r);
    if built.Some? && built.value.Ok? { ListNamed(s.account.settings, ActionsOf(built.value.value)); }
  }

  lemma OneLists(s: System, intent: Intent, r: Request)
    requires IsFor(r, s)
    requires intent.CreateLimit? || intent.CreateAboveLimit? || intent.UpdateLimit? || intent.RemoveLimit?
             || intent.SetLock?
    ensures ListsItsRules(s, intent, r)
  {
    var built := ProposeAs(s, intent, r);
    if built.Some? && built.value.Ok? { ListNamed(s.account.settings, ActionsOf(built.value.value)); }
  }

  /**
   * Whatever the change, it is proposed in two instructions on this Account's Settings: the
   * change itself and its proposal, both at the request's index, signed by its proposer
   * and paid for by its rent payer.
   */
  lemma ProposedIs(s: System, intent: Intent, r: Request)
    requires IsFor(r, s) && ProposeAs(s, intent, r).Some? && ProposeAs(s, intent, r).value.Ok?
    ensures var built, settings := ProposeAs(s, intent, r).value.value, s.account.settings;
            built.propose ==
            [ Instruction(SquadsProgram, [settings, TransactionAddress(settings, r.transactionIndex), r.proposer,
                                          r.rentPayer, SystemProgram],
                          Args(CreateSettingsTransaction(ActionsOf(built)))),
              Instruction(SquadsProgram, [settings, ProposalAddress(settings, r.transactionIndex), r.proposer,
                                          r.rentPayer, SystemProgram],
                          Args(CreateProposal(r.transactionIndex))) ]
  {
  }

  /**
   * Executed with its own list, a built change is given, after the six accounts of any
   * execution, exactly the rules its actions name, in their order.
   */
  lemma ExecutionCarriesTheRules(s: System, intent: Intent, r: Request, signer: Key)
    requires IsFor(r, s) && ProposeAs(s, intent, r).Some? && ProposeAs(s, intent, r).value.Ok?
    ensures var built := ProposeAs(s, intent, r).value.value;
            BuildExecute(r, signer, built.policies).accounts
            == [ s.account.settings, signer, ProposalAddress(s.account.settings, r.transactionIndex),
                 TransactionAddress(s.account.settings, r.transactionIndex), r.rentPayer, SystemProgram ]
               + RulesNamed(s.account.settings, ActionsOf(built))
  {
    PoliciesAreNamed(s, intent, r);
  }

  /** What the backend's row remembers once the change has landed. */
  function Remember(s: System, intent: Intent, after: Account): System {
    var t := s.(account := after);
    match intent
    case Provision(_, _) => t.(limitSeed := Some(s.account.lastSeed + 1), aboveSeed := Some(s.account.lastSeed + 2))
    case CreateLimit(_) => t.(limitSeed := Some(s.account.lastSeed + 1))
    case CreateAboveLimit => t.(aboveSeed := Some(s.account.lastSeed + 1))
    case RemoveLimit => t.(limitSeed := None)
    case RotateApproval(newKey) => t.(approval := newKey)
    case RotatePrimary(newKey) => t.(primary := newKey)
    case _ => t
  }

  function Step(s: System, intent: Intent): System {
    match Propose(s, intent)
    case None => s
    case Some(Err(_)) => s
    case Some(Ok(p)) =>
      match Execute(s.account, ActionsOf(p))
      case Err(_) => s
      case Ok(after) => Remember(s, intent, after)
  }

  function Run(s: System, intents: seq<Intent>): System
    decreases |intents|
  {
    if intents == [] then s else Run(Step(s, intents[0]), intents[1..])
  }

  // ---- signer list facts under the invariant ----

  lemma VotesAreMasks()
    ensures Has(ALL_PERMISSIONS, VOTE) && Has(RECOVERY_PERMISSIONS, VOTE) && Has(ALL_PERMISSIONS, INITIATE)
    ensures !Has(RECOVERY_PERMISSIONS, INITIATE) && !Has(RECOVERY_PERMISSIONS, EXECUTE)
  {
  }

  /** Distinct signers, one per role at least: three of them, and every one votes. */
  lemma ThreeVoters(s: System)
    requires SignersOk(s)
    ensures |s.account.signers| >= 3
    ensures Voters(s.account.signers) == |s.account.signers|
  {
    VotesAreMasks();
    EveryoneVotes(s.account.signers);
    var x :| x in s.account.signers && x.key != s.primary && x.key != s.approval;
    var i :| 0 <= i < |s.account.signers| && s.account.signers[i] == x;
    var j :| 0 <= j < |s.account.signers| && s.account.signers[j] == Signer(s.primary, ALL_PERMISSIONS);
    var k :| 0 <= k < |s.account.signers| && s.account.signers[k] == Signer(s.approval, ALL_PERMISSIONS);
    assert i != j && i != k && j != k;
  }
}
