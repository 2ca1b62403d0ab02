/**
 * Settings changes read back as they were built, and each is accepted by the
 * walk it belongs to.
 */
module SettingsAgreement {
  import opened Wrappers
  import opened Keys
  import opened Squads
  import opened Describe
  import opened Verify
  import opened Ballots
  import opened Walks
  import B = Builders
  import L = Lifecycle

  // ---- the proposal, read back ----

  lemma ReadPropose(r: B.Request, actions: seq<SettingsAction>)
    ensures var ixs := B.ProposeSettingsChange(r, actions);
            && DecodeInstruction(ixs[0])
               == DPropose(r.addresses.settings, TransactionAddress(r.addresses.settings, r.transactionIndex),
                           r.proposer,
                           actions)
            && DecodeInstruction(ixs[1]) == DProposal(r.addresses.settings, ProposalOf(r), r.transactionIndex)
  {
    var ixs := B.ProposeSettingsChange(r, actions);
    assert DecodeInstruction(ixs[0]) == DecodeSquads(ixs[0].accounts, ixs[0].data);
    assert DecodeInstruction(ixs[1]) == DecodeSquads(ixs[1].accounts, ixs[1].data);
  }

  lemma {:induction false} NoneBudget(ixs: seq<Instruction>)
    requires forall i :: 0 <= i < |ixs| ==> !DecodeInstruction(ixs[i]).DComputeBudget?
    ensures WithoutComputeBudget(ixs) == ixs
  {
    if ixs != [] {
      NoneBudget(ixs[1..]);
    }
  }

  /** The change as a message says it. */
  function Said(r: B.Request, actions: seq<SettingsAction>, ballots: seq<Ballot>): Description {
    SettingsChange(r.addresses.settings, r.addresses.vault, r.transactionIndex, r.proposer,
                   DescribeActions(actions, r.addresses.settings), VotesIn(ballots))
  }

  /** A proposal with any votes beside it, among any compute-budget instructions, reads back as its own actions. */
  lemma ProposalReadsBack(r: B.Request, actions: seq<SettingsAction>, ballots: seq<Ballot>, ixs: seq<Instruction>)
    requires r.addresses.vault == Vault(r.addresses.settings)
    requires WithoutComputeBudget(ixs) == B.ProposeSettingsChange(r, actions) + Cast(r, ballots)
    ensures DescribeInstructions(ixs, PlainContext(r.addresses.vault)) == Said(r, actions, ballots)
  {
    var all := B.ProposeSettingsChange(r, actions) + Cast(r, ballots);
    var d := DecodeEach(all);
    ProposalDecodes(r, actions, ballots, d);
    assert forall i :: 0 <= i < |all| ==> d[i] in d;
    NoneBudget(all);
    ComputeBudgetInvisible(ixs, all, PlainContext(r.addresses.vault));
    AssembleProposal(r, actions, ballots, d);
  }

  lemma ProposalDecodes(r: B.Request, actions: seq<SettingsAction>, ballots: seq<Ballot>, d: seq<Decoded>)
    requires d == DecodeEach(B.ProposeSettingsChange(r, actions) + Cast(r, ballots))
    ensures |d| >= 2 && d[2..] == DecodeEach(Cast(r, ballots))
    ensures d[0] == DPropose(r.addresses.settings, TransactionAddress(r.addresses.settings, r.transactionIndex),
                             r.proposer, actions)
    ensures d[1] == DProposal(r.addresses.settings, ProposalOf(r), r.transactionIndex)
    ensures forall v :: v in d[2..] ==> IsBallot(v, r)
    ensures forall x :: x in d ==> x != DUnknown && !x.DComputeBudget?
  {
    var propose, votes := B.ProposeSettingsChange(r, actions), Cast(r, ballots);
    var tail := DecodeEach(votes);
    ReadPropose(r, actions);
    assert (propose + votes)[2..] == votes;
    assert d[2..] == tail;
    BallotsDecode(r, ballots, tail);
    assert d == [d[0], d[1]] + tail;
  }

  lemma AssembleProposal(r: B.Request, actions: seq<SettingsAction>, ballots: seq<Ballot>, d: seq<Decoded>)
    requires r.addresses.vault == Vault(r.addresses.settings)
    requires |d| >= 2 && d[2..] == DecodeEach(Cast(r, ballots))
    requires d[0] == DPropose(r.addresses.settings, TransactionAddress(r.addresses.settings, r.transactionIndex),
                              r.proposer, actions)
    requires d[1] == DProposal(r.addresses.settings, ProposalOf(r), r.transactionIndex)
    requires forall v :: v in d[2..] ==> IsBallot(v, r)
    ensures Assemble(d, PlainContext(r.addresses.vault)) == Said(r, actions, ballots)
  {
    var e, tail := d[1..], d[2..];
    BallotsDecode(r, ballots, tail);
    OnlyVotes(tail);
    assert e[1..] == tail;
    assert Proposes(e) == [];
    assert Proposals(e) == [d[1]];
    assert Spends(e) == [];
    assert Transfers(e) == [];
    assert Opens(e) == [];
    assert Votings(e) == tail;
    assert Proposes(d) == [d[0]];
    assert Proposals(d) == [d[1]];
    assert Spends(d) == [];
    assert Transfers(d) == [];
    assert Opens(d) == [];
    assert Votings(d) == tail;
  }

  // ---- nothing is lost in the description ----

  function KeyOf(m: Mint): Key {
    match m
    case Sol => NATIVE_MINT
    case Token(k) => k
  }

  function AllHolding(keys: seq<Key>): (r: seq<Signer>)
    ensures |r| == |keys|
    ensures forall i :: 0 <= i < |keys| ==> r[i] == Signer(keys[i], ALL_PERMISSIONS)
  {
    Map(k => Signer(k, ALL_PERMISSIONS), keys)
  }

  /** A policy's payload as its described terms determine it, for the payloads this package writes. */
  function RestatePayload(terms: PolicyTerms): Payload {
    match terms
    case LimitTerms(mint, maxPerUse, maxPerPeriod, period, destinations, _, _, _) =>
      SpendingLimitPayload(KeyOf(mint), PRIMARY_ACCOUNT_INDEX, 0, period, false, maxPerPeriod, maxPerUse, false,
                           destinations)
    case ProgramTerms(allowed, _, _, _, _) =>
      ProgramInteractionPayload(PRIMARY_ACCOUNT_INDEX, Map(k => Constraint(k, 0, 0), allowed))
    case OtherTerms(name, _, _, _) => OtherPayload(name)
  }

  function Restate(a: DescribedAction): SettingsAction {
    match a
    case AddsSigner(key, mask) => AddSigner(Signer(key, mask))
    case RemovesSigner(key) => RemoveSigner(key)
    case SetsTimeLock(seconds) => SetTimeLock(seconds)
    case ChangesThreshold(n) => ChangeThreshold(n)
    case CreatesPolicy(_, seed, terms) =>
      PolicyCreate(seed, RestatePayload(terms), AllHolding(terms.signers), terms.threshold, terms.timeLock)
    case UpdatesPolicy(policy, terms) =>
      PolicyUpdate(policy, RestatePayload(terms), AllHolding(terms.signers), terms.threshold, terms.timeLock)
    case RemovesPolicy(policy) => PolicyRemove(policy)
    case OtherDescribed(name) => OtherAction(name)
  }

  function RestateAll(actions: seq<DescribedAction>): (r: seq<SettingsAction>)
    ensures |r| == |actions|
    ensures forall i :: 0 <= i < |r| ==> r[i] == Restate(actions[i])
  {
    Map(a => Restate(a), actions)
  }

  /** A payload of the form this package writes: the fields its description leaves out have one value. */
  predicate PlainPayload(p: Payload) {
    match p
    case SpendingLimitPayload(_, source, start, _, accumulate, _, _, exact, _) =>
      source == PRIMARY_ACCOUNT_INDEX && start == 0 && !accumulate && !exact
    case ProgramInteractionPayload(index, constraints) =>
      index == PRIMARY_ACCOUNT_INDEX && forall c :: c in constraints ==> c.accountRules == 0 && c.dataRules == 0
    case OtherPayload(_) => true
  }

  predicate PlainAction(a: SettingsAction) {
    match a
    case PolicyCreate(_, payload, signers, _, _) =>
      PlainPayload(payload) && forall x :: x in signers ==> x.mask == ALL_PERMISSIONS
    case PolicyUpdate(_, payload, signers, _, _) =>
      PlainPayload(payload) && forall x :: x in signers ==> x.mask == ALL_PERMISSIONS
    case _ => true
  }

  lemma RestatedAction(a: SettingsAction, settings: Key)
    requires PlainAction(a)
    ensures Restate(DescribeAction(a, settings)) == a
  {
  }

  /** Every list a builder emits is fully determined by its own description. */
  lemma BuiltIsRestated(s: L.System, intent: L.Intent, r: B.Request)
    requires L.ProposeAs(s, intent, r).Some? && L.ProposeAs(s, intent, r).value.Ok?
    ensures var actions := B.ActionsOf(L.ProposeAs(s, intent, r).value.value);
            RestateAll(DescribeActions(actions, s.account.settings)) == actions
  {
    var actions := B.ActionsOf(L.ProposeAs(s, intent, r).value.value);
    BuiltArePlain(s, intent, r);
    forall i | 0 <= i < |actions| ensures Restate(DescribeAction(actions[i], s.account.settings)) == actions[i] {
      assert actions[i] in actions;
      RestatedAction(actions[i], s.account.settings);
    }
  }

  lemma BuiltArePlain(s: L.System, intent: L.Intent, r: B.Request)
    requires L.ProposeAs(s, intent, r).Some? && L.ProposeAs(s, intent, r).value.Ok?
    ensures forall a :: a in B.ActionsOf(L.ProposeAs(s, intent, r).value.value) ==> PlainAction(a)
  {
    if intent.RotateApproval? || intent.RotatePrimary? {
      RotationsArePlain(s, intent, r);
    }
  }

  lemma RotationsArePlain(s: L.System, intent: L.Intent, r: B.Request)
    requires intent.RotateApproval? || intent.RotatePrimary?
    requires L.ProposeAs(s, intent, r).Some? && L.ProposeAs(s, intent, r).value.Ok?
    ensures forall a :: a in B.ActionsOf(L.ProposeAs(s, intent, r).value.value) ==> PlainAction(a)
  {
  }

  // ---- each change passes its own walk ----

  /** The walk a change is taken through. */
  function WalkOf(intent: L.Intent): Option<WalkKind> {
    match intent
    case Provision(_, _) => Some(Provisioning)
    case CreateLimit(_) => Some(LimitChange)
    case UpdateLimit(_) => Some(LimitChange)
    case RemoveLimit => Some(LimitChange)
    case AddRecovery(_) => Some(RecoveryChange)
    case RemoveRecovery(_) => Some(RecoveryChange)
    case RotateRecovery(_, _) => Some(RecoveryChange)
    case RotateApproval(_) => Some(DeviceRotation)
    case RotatePrimary(_) => Some(PrimaryRotation)
    case CreateAboveLimit => None
    case SetLock(_) => None
  }

  /** The step describes the change it carries: its flags, the key it names, and the one lock provisioning may set. */
  predicate Describes(plan: Plan, intent: L.Intent) {
    match intent
    case Provision(_, timeLock) => timeLock == B.SETTINGS_TIME_LOCK_SECONDS
    case CreateLimit(_) => plan.creating && !plan.removing
    case UpdateLimit(_) => !plan.creating && !plan.removing
    case RemoveLimit => plan.removing && !plan.creating
    case RotateApproval(newKey) => plan.newSigner == Some(newKey)
    case RotatePrimary(newKey) => plan.newSigner == Some(newKey)
    case _ => true
  }

  function One(actions: seq<DescribedAction>, i: nat, kind: Verify.Kind): nat {
    if i < |actions| && KindOf(actions[i]) == kind then 1 else 0
  }

  lemma CountsOf(a: seq<DescribedAction>)
    requires |a| <= 4
    ensures forall kind :: Count(a, kind) == One(a, 0, kind) + One(a, 1, kind) + One(a, 2, kind) + One(a, 3, kind)
  {
    assert |a| > 1 ==> a[1..][0] == a[1];
  }

  /** Acceptance of a short list, one action at a time. */
  lemma AcceptsFour(a: seq<DescribedAction>, e: ExpectedSettings)
    requires |a| <= 4
    ensures Accepts(a, e) <==>
      && CountsAllowed(a, e)
      && (|a| > 0 ==> Permitted(a[0], e)) && (|a| > 1 ==> Permitted(a[1], e))
      && (|a| > 2 ==> Permitted(a[2], e)) && (|a| > 3 ==> Permitted(a[3], e))
  {
    if |a| > 0 { assert a[0] in a; }
    if |a| > 1 { assert a[1] in a; }
    if |a| > 2 { assert a[2] in a; }
    if |a| > 3 { assert a[3] in a; }
    assert forall x :: x in a ==> exists i :: 0 <= i < |a| && a[i] == x;
  }

  /** The device that holds this Account. */
  predicate Holds(device: Device, s: L.System) {
    device.vault == Vault(s.account.settings) && device.primary == s.primary && device.approval == s.approval
  }

  /** Every change a builder emits is accepted by its own walk exactly when the step describes it truly. */
  lemma BuiltIsAccepted(s: L.System, intent: L.Intent, r: B.Request, plan: Plan, device: Device)
    requires s.primary != s.approval && Holds(device, s)
    requires L.ProposeAs(s, intent, r).Some? && L.ProposeAs(s, intent, r).value.Ok? && WalkOf(intent).Some?
    ensures var actions := B.ActionsOf(L.ProposeAs(s, intent, r).value.value);
            Accepts(DescribeActions(actions, s.account.settings), Bounds(WalkOf(intent).value, plan, device))
            <==> Describes(plan, intent)
  {
    if intent.Provision? {
      ProvisionAccepted(s, intent, r, plan, device);
    } else if intent.CreateLimit? || intent.UpdateLimit? || intent.RemoveLimit? {
      LimitAccepted(s, intent, r, plan, device);
    } else if intent.RotateApproval? {
      ApprovalAccepted(s, intent.newKey, r, plan, device);
    } else if intent.RotatePrimary? {
      PrimaryAccepted(s, intent.newKey, r, plan, device);
    } else {
      RecoveryAccepted(s, intent, r, plan, device);
    }
  }

  lemma ProvisionAccepted(s: L.System, intent: L.Intent, r: B.Request, plan: Plan, device: Device)
    requires Holds(device, s) && intent.Provision?
    requires L.ProposeAs(s, intent, r).Some? && L.ProposeAs(s, intent, r).value.Ok?
    ensures var actions := B.ActionsOf(L.ProposeAs(s, intent, r).value.value);
            Accepts(DescribeActions(actions, s.account.settings), Bounds(Provisioning, plan, device))
            <==> Describes(plan, intent)
  {
    var actions := B.ActionsOf(L.ProposeAs(s, intent, r).value.value);
    assert |actions| == 3 && actions[0].PolicyCreate? && actions[1].PolicyCreate?
        && actions[2] == SetTimeLock(intent.timeLock);
    SetUpAccepted(actions, s.account.settings, plan, device);
  }

  lemma SetUpAccepted(raw: seq<SettingsAction>, settings: Key, plan: Plan, device: Device)
    requires |raw| == 3 && raw[0].PolicyCreate? && raw[1].PolicyCreate? && raw[2].SetTimeLock?
    ensures Accepts(DescribeActions(raw, settings), Bounds(Provisioning, plan, device))
       <==> raw[2].newTimeLock == B.SETTINGS_TIME_LOCK_SECONDS
  {
    var actions := DescribeActions(raw, settings);
    CountsOf(actions);
    AcceptsFour(actions, Bounds(Provisioning, plan, device));
  }

  lemma LimitAccepted(s: L.System, intent: L.Intent, r: B.Request, plan: Plan, device: Device)
    requires Holds(device, s)
    requires intent.CreateLimit? || intent.UpdateLimit? || intent.RemoveLimit?
    requires L.ProposeAs(s, intent, r).Some? && L.ProposeAs(s, intent, r).value.Ok?
    ensures var actions := B.ActionsOf(L.ProposeAs(s, intent, r).value.value);
            Accepts(DescribeActions(actions, s.account.settings), Bounds(LimitChange, plan, device))
            <==> Describes(plan, intent)
  {
    var actions := B.ActionsOf(L.ProposeAs(s, intent, r).value.value);
    assert |actions| == 1;
    if intent.CreateLimit? {
      assert actions[0].PolicyCreate?;
    } else if intent.UpdateLimit? {
      assert actions[0].PolicyUpdate?;
    } else {
      assert actions[0].PolicyRemove?;
    }
    OneRuleAccepted(actions, s.account.settings, plan, device);
  }

  lemma OneRuleAccepted(raw: seq<SettingsAction>, settings: Key, plan: Plan, device: Device)
    requires |raw| == 1 && (raw[0].PolicyCreate? || raw[0].PolicyUpdate? || raw[0].PolicyRemove?)
    ensures Accepts(DescribeActions(raw, settings), Bounds(LimitChange, plan, device)) <==>
      plan.creating == raw[0].PolicyCreate? && plan.removing == raw[0].PolicyRemove?
  {
    var actions := DescribeActions(raw, settings);
    CountsOf(actions);
    AcceptsFour(actions, Bounds(LimitChange, plan, device));
  }

  lemma RecoveryAccepted(s: L.System, intent: L.Intent, r: B.Request, plan: Plan, device: Device)
    requires intent.AddRecovery? || intent.RemoveRecovery? || intent.RotateRecovery?
    requires L.ProposeAs(s, intent, r).Some? && L.ProposeAs(s, intent, r).value.Ok?
    ensures var actions := B.ActionsOf(L.ProposeAs(s, intent, r).value.value);
            Accepts(DescribeActions(actions, s.account.settings), Bounds(RecoveryChange, plan, device))
  {
    RecoveryMoveAccepted(B.ActionsOf(L.ProposeAs(s, intent, r).value.value), s.account.settings, plan, device);
  }

  /** At most one key in and one key out, and nothing else. */
  predicate IsRecoveryMove(raw: seq<SettingsAction>) {
    || (|raw| == 1 && (raw[0].AddSigner? || raw[0].RemoveSigner?))
    || (|raw| == 2 && raw[0].AddSigner? && raw[1].RemoveSigner?)
  }

  lemma RecoveryMoveAccepted(raw: seq<SettingsAction>, settings: Key, plan: Plan, device: Device)
    requires IsRecoveryMove(raw)
    ensures Accepts(DescribeActions(raw, settings), Bounds(RecoveryChange, plan, device))
  {
    var actions := DescribeActions(raw, settings);
    CountsOf(actions);
    AcceptsFour(actions, Bounds(RecoveryChange, plan, device));
  }

  /** One key in, one out, then rules rewritten without the one that left. */
  predicate IsSwap(raw: seq<SettingsAction>, newKey: Key, oldKey: Key) {
    && 3 <= |raw| <= 4
    && raw[0].AddSigner? && raw[0].newSigner.key == newKey
    && raw[1] == RemoveSigner(oldKey)
    && forall i :: 2 <= i < |raw| ==> WithoutKey(raw[i], oldKey)
  }

  predicate WithoutKey(a: SettingsAction, key: Key) {
    a.PolicyUpdate? && forall x :: x in a.updateSigners ==> x.key != key
  }

  lemma ApprovalList(s: L.System, newKey: Key, r: B.Request)
    requires s.primary != s.approval
    requires L.ProposeAs(s, L.RotateApproval(newKey), r).Some? && L.ProposeAs(s, L.RotateApproval(newKey), r).value.Ok?
    ensures IsSwap(B.ActionsOf(L.ProposeAs(s, L.RotateApproval(newKey), r).value.value), newKey, s.approval)
    ensures |B.ActionsOf(L.ProposeAs(s, L.RotateApproval(newKey), r).value.value)| == 3
  {
  }

  lemma PrimaryList(s: L.System, newKey: Key, r: B.Request)
    requires s.primary != s.approval
    requires L.ProposeAs(s, L.RotatePrimary(newKey), r).Some? && L.ProposeAs(s, L.RotatePrimary(newKey), r).value.Ok?
    ensures IsSwap(B.ActionsOf(L.ProposeAs(s, L.RotatePrimary(newKey), r).value.value), newKey, s.primary)
    ensures |B.ActionsOf(L.ProposeAs(s, L.RotatePrimary(newKey), r).value.value)| == 4
  {
  }

  lemma ApprovalAccepted(s: L.System, newKey: Key, r: B.Request, plan: Plan, device: Device)
    requires s.primary != s.approval && Holds(device, s)
    requires L.ProposeAs(s, L.RotateApproval(newKey), r).Some? && L.ProposeAs(s, L.RotateApproval(newKey), r).value.Ok?
    ensures var actions := B.ActionsOf(L.ProposeAs(s, L.RotateApproval(newKey), r).value.value);
            Accepts(DescribeActions(actions, s.account.settings), Bounds(DeviceRotation, plan, device))
            <==> plan.newSigner == Some(newKey)
  {
    ApprovalList(s, newKey, r);
    SwapAccepted(B.ActionsOf(L.ProposeAs(s, L.RotateApproval(newKey), r).value.value), s.account.settings,
                 device.vault, plan.newSigner, newKey, s.approval);
  }

  lemma PrimaryAccepted(s: L.System, newKey: Key, r: B.Request, plan: Plan, device: Device)
    requires s.primary != s.approval && Holds(device, s)
    requires L.ProposeAs(s, L.RotatePrimary(newKey), r).Some? && L.ProposeAs(s, L.RotatePrimary(newKey), r).value.Ok?
    ensures var actions := B.ActionsOf(L.ProposeAs(s, L.RotatePrimary(newKey), r).value.value);
            Accepts(DescribeActions(actions, s.account.settings), Bounds(PrimaryRotation, plan, device))
            <==> plan.newSigner == Some(newKey)
  {
    PrimaryList(s, newKey, r);
    SwapAccepted(B.ActionsOf(L.ProposeAs(s, L.RotatePrimary(newKey), r).value.value), s.account.settings,
                 device.vault, plan.newSigner, newKey, s.primary);
  }

  lemma PermitsWithout(a: SettingsAction, settings: Key, e: ExpectedSettings, oldKey: Key)
    requires WithoutKey(a, oldKey) && Retired(e) == [oldKey]
    ensures Permitted(DescribeAction(a, settings), e)
  {
    var keys := DescribeAction(a, settings).terms.signers;
    assert keys == Map((x: Signer) => x.key, a.updateSigners);
    forall j | 0 <= j < |keys| ensures keys[j] != oldKey {
      assert a.updateSigners[j] in a.updateSigners;
    }
  }

  /** A swap passes exactly when the step names the key it brings in. */
  lemma SwapAccepted(raw: seq<SettingsAction>, settings: Key, vault: Key, named: Option<Key>, newKey: Key, oldKey: Key)
    requires IsSwap(raw, newKey, oldKey)
    ensures Accepts(DescribeActions(raw, settings), Swap(vault, named, oldKey, |raw| - 2)) <==> named == Some(newKey)
  {
    var actions, e := DescribeActions(raw, settings), Swap(vault, named, oldKey, |raw| - 2);
    CountsOf(actions);
    AcceptsFour(actions, e);
    forall i | 2 <= i < |raw| ensures Permitted(actions[i], e) {
      PermitsWithout(raw[i], settings, e, oldKey);
    }
  }

  lemma ProposedByBuilder(s: L.System, intent: L.Intent, r: B.Request)
    requires L.ProposeAs(s, intent, r).Some? && L.ProposeAs(s, intent, r).value.Ok?
    ensures var p := L.ProposeAs(s, intent, r).value.value;
            p.propose == B.ProposeSettingsChange(r, B.ActionsOf(p))
  {
  }

  lemma ReadAndMatched(r: B.Request, actions: seq<SettingsAction>, ballots: seq<Ballot>, ixs: seq<Instruction>,
                       e: ExpectedSettings)
    requires r.addresses.vault == Vault(r.addresses.settings) && e.vault == r.addresses.vault
    requires WithoutComputeBudget(ixs) == B.ProposeSettingsChange(r, actions) + Cast(r, ballots)
    ensures SettingsMatch(DescribeInstructions(ixs, PlainContext(e.vault)), e)
       <==> Accepts(DescribeActions(actions, r.addresses.settings), e)
  {
    ProposalReadsBack(r, actions, ballots, ixs);
  }

  /**
   * The message carrying a built change, whoever proposes and pays for it and at
   * whatever index, with any votes and compute-budget instructions beside it, passes
   * its own walk's check exactly when the step describes it truly.
   */
  lemma BuiltMessageIsAccepted(s: L.System, intent: L.Intent, r: B.Request, plan: Plan, device: Device,
                               ballots: seq<Ballot>, ixs: seq<Instruction>, e: ExpectedSettings)
    requires s.primary != s.approval && Holds(device, s) && WalkOf(intent).Some? && L.IsFor(r, s)
    requires L.ProposeAs(s, intent, r).Some? && L.ProposeAs(s, intent, r).value.Ok?
    requires WithoutComputeBudget(ixs) == L.ProposeAs(s, intent, r).value.value.propose + Cast(r, ballots)
    requires e == Bounds(WalkOf(intent).value, plan, device)
    ensures SettingsMatch(DescribeInstructions(ixs, PlainContext(device.vault)), e) <==> Describes(plan, intent)
  {
    ProposedByBuilder(s, intent, r);
    ReadAndMatched(r, B.ActionsOf(L.ProposeAs(s, intent, r).value.value), ballots, ixs, e);
    BuiltIsAccepted(s, intent, r, plan, device);
  }
}
