/**
 * The settings-change builders: an intent in, an ordered action list out, or a
 * refusal.
 */
module Builders {
  import opened Wrappers
  import opened Keys
  import opened Squads

  const ACCOUNT_THRESHOLD: nat := 2
  const SETTINGS_TIME_LOCK_SECONDS: nat := 60 * 60 * 24
  const MAX_INSTRUCTION_CONSTRAINTS: nat := 20
  const RECOVERY_PERMISSIONS: Mask := VOTE

  datatype Role = Primary | Approval | Recovery

  function RolePermissions(role: Role): Mask {
    match role
    case Primary => ALL_PERMISSIONS
    case Approval => ALL_PERMISSIONS
    case Recovery => RECOVERY_PERMISSIONS
  }

  datatype Refusal =
    | MissingRole(role: Role)
    | DuplicateAddress
    | SameSigner
    | SameSeed
    | NotARecoverySigner
    | OnlyRecoverySigner
    | NotOnSettings
    | NoInitiate
    | WrongPolicy
    | DifferentMint
    | LimitSignerNotOnSettings
    | SameTerms
    | PerUseAbovePerPeriod
    | EmptyAllowlist
    | AllowlistTooLong
    | AllowlistRepeats
    | PrimaryIsApproval

  datatype AccountSigner = AccountSigner(role: Role, address: Key)

  /** Creation takes exactly three signers; every role must appear, at its own address. */
  function AssertSignerSet(a: AccountSigner, b: AccountSigner, c: AccountSigner): (r: Result<(), Refusal>)
    ensures r.Ok? <==>
      {a.role, b.role, c.role} == {Primary, Approval, Recovery} && |{a.address, b.address, c.address}| == 3
    ensures forall role :: r == Err(MissingRole(role)) ==> role !in {a.role, b.role, c.role}
    ensures r.Err? && r.error != DuplicateAddress ==> exists role :: r == Err(MissingRole(role))
    ensures r == Err(DuplicateAddress) ==> |{a.address, b.address, c.address}| < 3
  {
    var roles := {a.role, b.role, c.role};
    if Primary !in roles then Err(MissingRole(Primary))
    else if Approval !in roles then Err(MissingRole(Approval))
    else if Recovery !in roles then Err(MissingRole(Recovery))
    else if |{a.address, b.address, c.address}| != 3 then Err(DuplicateAddress)
    else Ok(())
  }

  datatype Creation = Creation(addresses: Addresses, signers: seq<Signer>, threshold: nat, timeLock: nat)

  function BuildCreateAccount(a: AccountSigner, b: AccountSigner, c: AccountSigner, settingsSeed: nat, timeLock: nat)
    : Result<Creation, Refusal>
  {
    var _ :- AssertSignerSet(a, b, c);
    Ok(Creation(
         DeriveAddresses(settingsSeed),
         Map((s: AccountSigner) => Signer(s.address, RolePermissions(s.role)), [a, b, c]),
         ACCOUNT_THRESHOLD,
         timeLock))
  }

  datatype Terms = Terms(
    mint: Key, maxPerUse: nat, maxPerPeriod: nat, period: LimitPeriod, destinations: seq<Key>)

  /** A limit as the chain holds it. */
  datatype SpendingLimit = SpendingLimit(
    policy: Key, mint: Key, maxPerUse: nat, maxPerPeriod: nat, remainingInPeriod: nat,
    period: LimitPeriod, destinations: seq<Key>)

  function TermsOf(limit: SpendingLimit): Terms {
    Terms(limit.mint, limit.maxPerUse, limit.maxPerPeriod, limit.period, limit.destinations)
  }

  predicate SameTermsAs(terms: Terms, limit: SpendingLimit) {
    && terms.maxPerUse == limit.maxPerUse
    && terms.maxPerPeriod == limit.maxPerPeriod
    && terms.period == limit.period
    && terms.destinations == limit.destinations
  }

  // ---- payloads and single actions ----

  /** The terms a spending-limit payload carries. */
  function TermsIn(p: Payload): Option<Terms> {
    match p
    case SpendingLimitPayload(mint, _, _, period, _, perPeriod, perUse, _, destinations) =>
      if period == Custom then None else Some(Terms(mint, perUse, perPeriod, period, destinations))
    case _ => None
  }

  /**
   * Refused exactly when the caps are out of order; otherwise the terms themselves, over
   * the primary account, from now.
   */
  function LimitPayload(terms: Terms): (r: Result<Payload, Refusal>)
    ensures r.Ok? <==> terms.maxPerUse <= terms.maxPerPeriod
    ensures r.Ok? ==> TermsIn(r.value) == Some(terms)
    ensures r.Ok? ==> r.value.sourceAccountIndex == PRIMARY_ACCOUNT_INDEX && r.value.start == 0
                      && !r.value.accumulateUnused && !r.value.enforceExactQuantity
  {
    if terms.maxPerUse > terms.maxPerPeriod then Err(PerUseAbovePerPeriod)
    else Ok(SpendingLimitPayload(
              terms.mint, PRIMARY_ACCOUNT_INDEX, 0, terms.period, false,
              terms.maxPerPeriod, terms.maxPerUse, false, terms.destinations))
  }

  /** No program listed twice. */
  predicate NoRepeats(keys: seq<Key>) {
    forall i, j :: 0 <= i < j < |keys| ==> keys[i] != keys[j]
  }

  lemma {:induction false} NoRepeatsIff(keys: seq<Key>)
    ensures |set k | k in keys| <= |keys|
    ensures |set k | k in keys| == |keys| <==> NoRepeats(keys)
  {
    if keys != [] {
      var n := |keys| - 1;
      var front := keys[..n];
      NoRepeatsIff(front);
      assert keys == front + [keys[n]];
      assert (set k | k in keys) == (set k | k in front) + {keys[n]};
      if keys[n] in front {
        var i :| 0 <= i < n && front[i] == keys[n];
        assert (set k | k in keys) == (set k | k in front);
        assert keys[i] == keys[n];
      } else {
        assert forall i :: 0 <= i < n ==> front[i] in front;
        assert NoRepeats(front) ==> NoRepeats(keys);
      }
      assert NoRepeats(keys) ==> NoRepeats(front);
    }
  }

  /** Refused exactly when empty, over the program's limit, or with a program listed twice. */
  function AboveLimitPayload(allowed: seq<Key>): (r: Result<Payload, Refusal>)
    ensures r.Ok? <==> 0 < |allowed| <= 20 && NoRepeats(allowed)
    ensures r.Ok? ==> r.value.ProgramInteractionPayload? && |r.value.constraints| == |allowed|
    ensures r.Ok? ==> forall i :: 0 <= i < |allowed| ==> r.value.constraints[i] == Constraint(allowed[i], 0, 0)
  {
    NoRepeatsIff(allowed);
    if |allowed| == 0 then Err(EmptyAllowlist)
    else if |allowed| > MAX_INSTRUCTION_CONSTRAINTS then Err(AllowlistTooLong)
    else if |set k | k in allowed| != |allowed| then Err(AllowlistRepeats)
    else Ok(ProgramInteractionPayload(PRIMARY_ACCOUNT_INDEX, Map(k => Constraint(k, 0, 0), allowed)))
  }

  function LimitSigners(limitSigner: Key): seq<Signer> {
    [Signer(limitSigner, ALL_PERMISSIONS)]
  }

  function AboveLimitSigners(primary: Key, approval: Key): seq<Signer> {
    [Signer(primary, ALL_PERMISSIONS), Signer(approval, ALL_PERMISSIONS)]
  }

  function LimitCreateAction(seed: nat, terms: Terms, limitSigner: Key): Result<SettingsAction, Refusal> {
    var payload :- LimitPayload(terms);
    Ok(PolicyCreate(seed, payload, LimitSigners(limitSigner), 1, 0))
  }

  function LimitUpdateAction(policy: Key, terms: Terms, limitSigner: Key): Result<SettingsAction, Refusal> {
    var payload :- LimitPayload(terms);
    Ok(PolicyUpdate(policy, payload, LimitSigners(limitSigner), 1, 0))
  }

  function AboveLimitCreateAction(seed: nat, primary: Key, approval: Key, allowed: seq<Key>)
    : Result<SettingsAction, Refusal>
  {
    if primary == approval then Err(PrimaryIsApproval)
    else
      var payload :- AboveLimitPayload(allowed);
      Ok(PolicyCreate(seed, payload, AboveLimitSigners(primary, approval), 2, 0))
  }

  function AboveLimitUpdateAction(policy: Key, primary: Key, approval: Key, allowed: seq<Key>)
    : Result<SettingsAction, Refusal>
  {
    if primary == approval then Err(PrimaryIsApproval)
    else
      var payload :- AboveLimitPayload(allowed);
      Ok(PolicyUpdate(policy, payload, AboveLimitSigners(primary, approval), 2, 0))
  }

  function AddSignerAction(newSigner: Key, role: Role): SettingsAction {
    AddSigner(Signer(newSigner, RolePermissions(role)))
  }

  // ---- the proposal every builder ends in ----

  /** Who proposes, who pays, and at which transaction index. */
  datatype Request = Request(addresses: Addresses, proposer: Key, rentPayer: Key, transactionIndex: nat)

  /** The change's policies in action order, and the instructions proposing it. */
  datatype Proposal = Proposal(policies: seq<Key>, propose: seq<Instruction>)

  function ProposeSettingsChange(r: Request, actions: seq<SettingsAction>): seq<Instruction> {
    var transaction := TransactionAddress(r.addresses.settings, r.transactionIndex);
    var proposal := ProposalAddress(r.addresses.settings, r.transactionIndex);
    [ Instruction(
        SquadsProgram,
        [r.addresses.settings, transaction, r.proposer, r.rentPayer, SystemProgram],
        Args(CreateSettingsTransaction(actions))),
      Instruction(
        SquadsProgram,
        [r.addresses.settings, proposal, r.proposer, r.rentPayer, SystemProgram],
        Args(CreateProposal(r.transactionIndex))) ]
  }

  /** The action list a built proposal carries. */
  function ActionsOf(p: Proposal): seq<SettingsAction> {
    if |p.propose| > 0 && p.propose[0].data.Args? && p.propose[0].data.args.CreateSettingsTransaction?
    then p.propose[0].data.args.actions
    else []
  }

  function BuildApprove(r: Request, signer: Key): Instruction {
    Instruction(SquadsProgram,
                [r.addresses.settings, signer, ProposalAddress(r.addresses.settings, r.transactionIndex)],
                Args(ApproveProposal))
  }

  function BuildReject(r: Request, signer: Key): Instruction {
    Instruction(SquadsProgram,
                [r.addresses.settings, signer, ProposalAddress(r.addresses.settings, r.transactionIndex)],
                Args(RejectProposal))
  }

  function BuildExecute(r: Request, signer: Key, policies: seq<Key>): Instruction {
    Instruction(SquadsProgram,
                [r.addresses.settings, signer, ProposalAddress(r.addresses.settings, r.transactionIndex),
                 TransactionAddress(r.addresses.settings, r.transactionIndex), r.rentPayer, SystemProgram] + policies,
                Args(ExecuteSettingsTransaction))
  }

  // ---- builders ----

  function BuildCreateSpendingLimit(r: Request, seed: nat, terms: Terms, limitSigner: Key): Result<Proposal, Refusal> {
    var create :- LimitCreateAction(seed, terms, limitSigner);
    Ok(Proposal([PolicyAddress(r.addresses.settings, seed)], ProposeSettingsChange(r, [create])))
  }

  function BuildCreateAboveLimit(r: Request, seed: nat, primary: Key, approval: Key, allowed: seq<Key>)
    : Result<Proposal, Refusal>
  {
    var create :- AboveLimitCreateAction(seed, primary, approval, allowed);
    Ok(Proposal([PolicyAddress(r.addresses.settings, seed)], ProposeSettingsChange(r, [create])))
  }

  function BuildSetTimeLock(r: Request, seconds: nat): Proposal {
    Proposal([], ProposeSettingsChange(r, [SetTimeLock(seconds)]))
  }

  function BuildProvision(
    r: Request, limitSeed: nat, aboveSeed: nat, terms: Terms, primary: Key, approval: Key,
    timeLock: nat, allowed: seq<Key>): Result<Proposal, Refusal>
  {
    if limitSeed == aboveSeed then Err(SameSeed)
    else
      var limit :- LimitCreateAction(limitSeed, terms, primary);
      var above :- AboveLimitCreateAction(aboveSeed, primary, approval, allowed);
      Ok(Proposal(
           [PolicyAddress(r.addresses.settings, limitSeed), PolicyAddress(r.addresses.settings, aboveSeed)],
           ProposeSettingsChange(r, [limit, above, SetTimeLock(timeLock)])))
  }

  function BuildAddRecovery(r: Request, newSigner: Key): Proposal {
    Proposal([], ProposeSettingsChange(r, [AddSignerAction(newSigner, Recovery)]))
  }

  function BuildRemoveRecovery(r: Request, oldSigner: Key, recoverySigners: seq<Key>): Result<Proposal, Refusal> {
    if oldSigner !in recoverySigners then Err(NotARecoverySigner)
    else if |recoverySigners| == 1 then Err(OnlyRecoverySigner)
    else Ok(Proposal([], ProposeSettingsChange(r, [RemoveSigner(oldSigner)])))
  }

  function BuildRotateRecovery(r: Request, oldSigner: Key, newSigner: Key): Result<Proposal, Refusal> {
    if oldSigner == newSigner then Err(SameSigner)
    else Ok(Proposal([], ProposeSettingsChange(r, [AddSignerAction(newSigner, Recovery), RemoveSigner(oldSigner)])))
  }

  function BuildRotateApproval(
    r: Request, oldApproval: Key, newApproval: Key, primary: Key, aboveSeed: nat, allowed: seq<Key>)
    : Result<Proposal, Refusal>
  {
    if oldApproval == newApproval then Err(SameSigner)
    else
      var policy := PolicyAddress(r.addresses.settings, aboveSeed);
      var update :- AboveLimitUpdateAction(policy, primary, newApproval, allowed);
      Ok(Proposal([policy], ProposeSettingsChange(
                    r, [AddSignerAction(newApproval, Approval), RemoveSigner(oldApproval), update])))
  }

  /** The Settings entry for a key, as `find` returns it. */
  function FindSigner(signers: seq<Signer>, key: Key): (r: Option<Signer>)
    ensures r.Some? ==> r.value in signers && r.value.key == key
    ensures r.None? <==> forall s :: s in signers ==> s.key != key
  {
    if signers == [] then None
    else if signers[0].key == key then Some(signers[0])
    else
      assert forall s :: s in signers <==> s == signers[0] || s in signers[1..];
      FindSigner(signers[1..], key)
  }

  function AssertHoldsInitiate(signers: seq<Signer>, proposer: Key): Result<(), Refusal> {
    match FindSigner(signers, proposer)
    case None => Err(NotOnSettings)
    case Some(s) => if Has(s.mask, INITIATE) then Ok(()) else Err(NoInitiate)
  }

  function BuildRotatePrimary(
    r: Request, oldPrimary: Key, newPrimary: Key, approval: Key, signers: seq<Signer>,
    limitSeed: nat, currentLimit: SpendingLimit, aboveSeed: nat, allowed: seq<Key>): Result<Proposal, Refusal>
  {
    if oldPrimary == newPrimary then Err(SameSigner)
    else if limitSeed == aboveSeed then Err(SameSeed)
    else
      var _ :- AssertHoldsInitiate(signers, approval);
      var limitPolicy := PolicyAddress(r.addresses.settings, limitSeed);
      var abovePolicy := PolicyAddress(r.addresses.settings, aboveSeed);
      if currentLimit.policy != limitPolicy then Err(WrongPolicy)
      else
        var limit :- LimitUpdateAction(limitPolicy, TermsOf(currentLimit), newPrimary);
        var above :- AboveLimitUpdateAction(abovePolicy, newPrimary, approval, allowed);
        Ok(Proposal([limitPolicy, abovePolicy], ProposeSettingsChange(
                      r, [AddSignerAction(newPrimary, Primary), RemoveSigner(oldPrimary), limit, above])))
  }

  function SpendingLimitPolicyOf(addresses: Addresses, limitSeed: nat, currentLimit: SpendingLimit)
    : Result<Key, Refusal>
  {
    var policy := PolicyAddress(addresses.settings, limitSeed);
    if currentLimit.policy != policy then Err(WrongPolicy) else Ok(policy)
  }

  function BuildUpdateLimit(
    r: Request, limitSeed: nat, currentLimit: SpendingLimit, terms: Terms, limitSigner: Key, signers: seq<Signer>)
    : Result<Proposal, Refusal>
  {
    var policy :- SpendingLimitPolicyOf(r.addresses, limitSeed, currentLimit);
    var _ :- AssertHoldsInitiate(signers, r.proposer);
    if terms.mint != currentLimit.mint then Err(DifferentMint)
    else if FindSigner(signers, limitSigner).None? then Err(LimitSignerNotOnSettings)
    else if SameTermsAs(terms, currentLimit) then Err(SameTerms)
    else
      var update :- LimitUpdateAction(policy, terms, limitSigner);
      Ok(Proposal([policy], ProposeSettingsChange(r, [update])))
  }

  function BuildRemoveLimit(r: Request, limitSeed: nat, currentLimit: SpendingLimit, signers: seq<Signer>)
    : Result<Proposal, Refusal>
  {
    var policy :- SpendingLimitPolicyOf(r.addresses, limitSeed, currentLimit);
    var _ :- AssertHoldsInitiate(signers, r.proposer);
    Ok(Proposal([policy], ProposeSettingsChange(r, [PolicyRemove(policy)])))
  }
}
