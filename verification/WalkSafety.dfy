/**
 * What a walk's acceptance is worth on chain, whatever the server answers: no money
 * moves, and executing what a step proposes changes no more than that walk is for.
 */
module WalkSafety {
  import opened Wrappers
  import opened Keys
  import opened Squads
  import opened Chain
  import opened Describe
  import opened Verify
  import opened ActionLists
  import opened SettingsSoundness
  import opened SpendAgreement
  import opened Ballots
  import opened Walks
  import B = Builders

  predicate Quiet(d: Decoded) {
    d.DPropose? || d.DProposal? || d.DVote? || d.DComputeBudget?
  }

  lemma QuietMoves(ix: Instruction)
    requires Quiet(DecodeInstruction(ix))
    ensures Moves(ix) == []
  {
    if DecodeInstruction(ix).DComputeBudget? {
      NothingMoves(ix);
    } else if ix.data.Args? && ix.data.args.ExecuteTransactionSyncV2? && ix.programId == SquadsProgram {
      SyncIsNotQuiet(ix.accounts, ix.data.args);
    }
  }

  lemma SyncIsNotQuiet(accounts: seq<Key>, args: SquadsArgs)
    requires args.ExecuteTransactionSyncV2?
    ensures !Quiet(DecodeSquads(accounts, Args(args)))
  {
    assert DecodeSquads(accounts, Args(args))
        == DecodeSyncSpend(accounts, args.accountIndex, args.numSigners, args.payload);
    var remaining := if |accounts| < 2 then [] else accounts[2..];
    if |accounts| >= 1 && args.payload.UnderPolicy? && |remaining| >= args.numSigners {
      SpendOrUnknown(accounts[0], remaining[..args.numSigners], remaining[args.numSigners..], args.payload.payload);
    }
  }

  lemma {:induction false} OnlyQuiet(d: seq<Decoded>)
    requires Spends(d) == [] && Transfers(d) == [] && Opens(d) == [] && DUnknown !in d
    ensures forall x :: x in d ==> Quiet(x)
  {
    if d != [] {
      assert forall x :: x in d <==> x == d[0] || x in d[1..];
      OnlyQuiet(d[1..]);
    }
  }

  lemma {:induction false} QuietMoveNothing(ixs: seq<Instruction>)
    requires forall d :: d in DecodeEach(ixs) ==> Quiet(d)
    ensures AllMoves(ixs) == []
  {
    if ixs != [] {
      var d := DecodeEach(ixs);
      assert d[0] in d;
      assert d[1..] == DecodeEach(ixs[1..]);
      forall x | x in d[1..] ensures x in d {}
      QuietMoves(ixs[0]);
      QuietMoveNothing(ixs[1..]);
    }
  }

  /**
   * An accepted settings step is proposing, voting and compute budget only: it moves no
   * money, and proposes at most one list of actions, itself accepted.
   */
  lemma AcceptedStepMovesNoMoney(ixs: seq<Instruction>, e: ExpectedSettings)
    requires SettingsMatch(DescribeInstructions(ixs, PlainContext(e.vault)), e)
    ensures AllMoves(ixs) == [] && forall d :: d in DecodeEach(ixs) ==> Quiet(d)
    ensures var proposes := Proposes(DecodeEach(ixs));
            && |proposes| <= 1
            && (proposes != [] ==> Vault(proposes[0].settings) == e.vault
                                   && Accepts(DescribeActions(proposes[0].actions, proposes[0].settings), e))
  {
    var d := DecodeEach(ixs);
    OnlyQuiet(d);
    QuietMoveNothing(ixs);
  }

  /** What the Account would be if the change a message proposes, on top of it, were executed. */
  function Leaves(ixs: seq<Instruction>, a: Account): Option<Account> {
    var proposes := Proposes(DecodeEach(ixs));
    if proposes == [] then None
    else
      match Execute(a, proposes[0].actions)
      case Err(_) => None
      case Ok(after) => Some(after)
  }

  /** A message that moves no money, with at most one change in it. */
  predicate MovesNoMoney(ixs: seq<Instruction>) {
    AllMoves(ixs) == [] && |Proposes(DecodeEach(ixs))| <= 1
  }

  /** What a vouched message leaves is what executing an accepted list leaves. */
  lemma LeavesAccepted(ixs: seq<Instruction>, e: ExpectedSettings, a: Account) returns (p: Propose)
    requires SettingsMatch(DescribeInstructions(ixs, PlainContext(e.vault)), e) && Leaves(ixs, a).Some?
    ensures Accepts(DescribeActions(p.actions, p.settings), e) && Execute(a, p.actions) == Ok(Leaves(ixs, a).value)
  {
    AcceptedStepMovesNoMoney(ixs, e);
    p := Proposes(DecodeEach(ixs))[0];
  }

  /** Everything vouched for on the shipped device matched its own step's bounds, and moves no money. */
  lemma VouchedMatches(kind: WalkKind, vault: Key, primary: Key, approval: Key, w: World, e: Event,
                       ixs: seq<Instruction>)
    requires e in WalkFrom(kind, Shipped(vault, primary, approval), w, 0).events
    requires Vouched(kind, Shipped(vault, primary, approval), w, e)
    requires Resolved(e.tx.message, PlainContext(vault)) == Some(ixs)
    ensures SettingsMatch(DescribeInstructions(ixs, PlainContext(vault)),
                          Bounds(kind, w.plans(e.pass), Shipped(vault, primary, approval)))
    ensures MovesNoMoney(ixs)
  {
    var device := Shipped(vault, primary, approval);
    VouchedWithin(kind, device, w, e);
    AcceptedStepMovesNoMoney(ixs, Bounds(kind, w.plans(e.pass), device));
  }

  /** The same signers, threshold and rules, two more rules made, and the lock left or set to a day. */
  ghost predicate OnlySetUp(before: Account, after: Account) {
    && after.signers == before.signers && after.threshold == before.threshold
    && (after.timeLock == before.timeLock || after.timeLock == 86_400)
    && exists made: seq<Policy> :: |made| == 2 && RulesOnlyMade(before, after, made)
  }

  /**
   * Whatever the server returns, a step put before a signer in a provisioning run moves
   * no money, and executing what it proposes, on any Account, only sets that Account up.
   */
  lemma ProvisioningMovesNoSigner(
    vault: Key, primary: Key, approval: Key, w: World, e: Event, ixs: seq<Instruction>, a: Account)
    requires e in WalkFrom(Provisioning, Shipped(vault, primary, approval), w, 0).events
    requires Vouched(Provisioning, Shipped(vault, primary, approval), w, e)
    requires Resolved(e.tx.message, PlainContext(vault)) == Some(ixs)
    ensures MovesNoMoney(ixs)
    ensures Leaves(ixs, a).Some? ==> OnlySetUp(a, Leaves(ixs, a).value)
  {
    VouchedMatches(Provisioning, vault, primary, approval, w, e, ixs);
    if Leaves(ixs, a).Some? {
      var expected := Bounds(Provisioning, w.plans(e.pass), Shipped(vault, primary, approval));
      var p := LeavesAccepted(ixs, expected, a);
      AcceptedMovesNoSigner(a, p.actions, p.settings, expected);
    }
  }

  /**
   * The same signers, threshold and lock, and at most one rule made, taken away or
   * rewritten: two only where the step says both.
   */
  ghost predicate OneRuleChanged(before: Account, after: Account, plan: Plan) {
    && after.signers == before.signers && after.threshold == before.threshold && after.timeLock == before.timeLock
    && after.lastSeed == before.lastSeed + OneIf(plan.creating)
    && |Touched(before, after)| <= if plan.creating && plan.removing then 2 else 1
  }

  /**
   * Whatever the server returns, a spending-limit step moves no money, and no key joins
   * or leaves on the back of it.
   */
  lemma LimitChangeMovesNoKey(
    vault: Key, primary: Key, approval: Key, w: World, e: Event, ixs: seq<Instruction>, a: Account)
    requires e in WalkFrom(LimitChange, Shipped(vault, primary, approval), w, 0).events
    requires Vouched(LimitChange, Shipped(vault, primary, approval), w, e)
    requires Resolved(e.tx.message, PlainContext(vault)) == Some(ixs)
    ensures MovesNoMoney(ixs)
    ensures Leaves(ixs, a).Some? ==> OneRuleChanged(a, Leaves(ixs, a).value, w.plans(e.pass))
  {
    VouchedMatches(LimitChange, vault, primary, approval, w, e, ixs);
    if Leaves(ixs, a).Some? {
      var expected := Bounds(LimitChange, w.plans(e.pass), Shipped(vault, primary, approval));
      var p := LeavesAccepted(ixs, expected, a);
      AcceptedMovesNoSigner(a, p.actions, p.settings, expected);
    }
  }

  /** At most one key in and one out, at most one rule rewritten, and nothing else moved. */
  ghost predicate OneKeyEachWay(before: Account, after: Account) {
    && |KeySet(after.signers) - KeySet(before.signers)| <= 1
    && |KeySet(before.signers) - KeySet(after.signers)| <= 1
    && after.threshold == before.threshold && after.timeLock == before.timeLock && after.lastSeed == before.lastSeed
    && after.policies.Keys == before.policies.Keys && |Touched(before, after)| <= 1
  }

  /** Whatever the server returns, a recovery step moves no money, and at most one key joins and one leaves. */
  lemma RecoveryMovesOneKeyEachWay(
    vault: Key, primary: Key, approval: Key, w: World, e: Event, ixs: seq<Instruction>, a: Account)
    requires e in WalkFrom(RecoveryChange, Shipped(vault, primary, approval), w, 0).events
    requires Vouched(RecoveryChange, Shipped(vault, primary, approval), w, e)
    requires Resolved(e.tx.message, PlainContext(vault)) == Some(ixs)
    ensures MovesNoMoney(ixs)
    ensures Leaves(ixs, a).Some? ==> OneKeyEachWay(a, Leaves(ixs, a).value)
  {
    VouchedMatches(RecoveryChange, vault, primary, approval, w, e, ixs);
    if Leaves(ixs, a).Some? {
      var expected := Bounds(RecoveryChange, w.plans(e.pass), Shipped(vault, primary, approval));
      var p := LeavesAccepted(ixs, expected, a);
      RecoveryStep(a, p.actions, p.settings, expected);
    }
  }

  lemma RecoveryStep(a: Account, raw: seq<SettingsAction>, settings: Key, e: ExpectedSettings)
    requires e == Nothing(e.vault).(maxAddSigners := 1, maxRemoveSigners := 1, policyUpdates := 1)
    requires Accepts(DescribeActions(raw, settings), e) && Execute(a, raw).Ok?
    ensures OneKeyEachWay(a, Execute(a, raw).value)
  {
    var after := Execute(a, raw).value;
    KeysMoved(a, raw);
    OneEach(raw, settings);
    Fewer(KeySet(after.signers) - KeySet(a.signers), Added(raw));
    Fewer(KeySet(a.signers) - KeySet(after.signers), Removed(raw));
    TermsMoved(a, raw, settings, e);
    RulesRewritten(a, raw, settings, e);
    TouchesAtMost(a, raw, settings);
  }

  /** The key a rotation retires. */
  function Retiring(kind: WalkKind, device: Device): Key
    requires kind == DeviceRotation || kind == PrimaryRotation
  {
    if kind == DeviceRotation then device.approval else device.primary
  }

  /**
   * Whatever the server returns, what a rotation's step proposes moves one key out
   * and the key the step named in, and leaves no rule it rewrites naming the old one.
   * A step may name the old key itself: then it goes and comes back.
   */
  lemma RotationMovesOneKey(kind: WalkKind, vault: Key, primary: Key, approval: Key, w: World, e: Event,
                            ixs: seq<Instruction>, a: Account)
    requires kind == DeviceRotation || kind == PrimaryRotation
    requires e in WalkFrom(kind, Shipped(vault, primary, approval), w, 0).events && !e.Submitted?
    requires Resolved(e.tx.message, PlainContext(vault)) == Some(ixs)
    ensures MovesNoMoney(ixs)
    ensures Leaves(ixs, a).Some? ==> OneKeyMoved(a, Leaves(ixs, a).value, w.plans(e.pass).newSigner,
                                                 if kind == DeviceRotation then approval else primary)
                                     && |Touched(a, Leaves(ixs, a).value)| <= if kind == DeviceRotation then 1 else 2
  {
    var device, plan := Shipped(vault, primary, approval), w.plans(e.pass);
    EverythingWasChecked(kind, device, w, 0);
    PrimaryWasAsked(kind, device, w, 0);
    VouchedMatches(kind, vault, primary, approval, w, e, ixs);
    if Leaves(ixs, a).Some? {
      var p := LeavesAccepted(ixs, Bounds(kind, plan, device), a);
      var updates := if kind == DeviceRotation then 1 else 2;
      AcceptedSwap(a, p.actions, p.settings, vault, plan.newSigner, Retiring(kind, device), updates);
    }
  }

  // ---- the one message that is not read ----

  /** An approval of one change of this vault's, as a message. */
  function ApprovalMessage(settings: Key, signer: Key, index: nat): Message {
    Message(true, [settings, signer, ProposalAddress(settings, index), SquadsProgram], 0,
            [CompiledInstruction(3, [0, 1, 2], Args(ApproveProposal))])
  }

  lemma ApprovalIsAccepted(settings: Key, signer: Key, index: nat, e: ExpectedSettings)
    requires e.vault == Vault(settings)
    ensures SettingsAccepted(ApprovalMessage(settings, signer, index), e)
  {
    var r := B.Request(Addresses(settings, Vault(settings)), signer, signer, index);
    var ballots := [Ballot(Vote(Approve, signer), [])];
    var m, context := ApprovalMessage(settings, signer, index), PlainContext(Vault(settings));
    assert forall c :: c in m.instructions ==> OnMessage(c, m.staticKeys);
    assert ResolveInstruction(m.instructions[0], m.staticKeys).accounts
        == [settings, signer, ProposalAddress(settings, index)];
    assert AccountKeys(m, context) == Some(m.staticKeys) && Resolved(m, context).Some?;
    assert Resolved(m, context).value == Cast(r, ballots);
    BallotsReadBack(r, ballots);
  }

  /** Nothing but a place for one key to sign: no walk's bounds allow it. */
  function BareMessage(key: Key): Message {
    Message(true, [key], 0, [])
  }

  /** The approval signer hands back the bare message for whatever it is given. */
  function Swapping(primary: Key): (nat, Tx) -> Option<Tx> {
    (i, tx) => Some(Tx(BareMessage(primary), 1))
  }

  lemma UnreadIsSigned(kind: WalkKind, device: Device, message: Message)
    requires kind == Provisioning || kind == LimitChange || kind == RecoveryChange
    requires forall plan :: device.accepts(message, Bounds(kind, plan, device))
    requires forall plan :: !device.accepts(BareMessage(device.primary), Bounds(kind, plan, device))
    ensures exists w: World :: w.approve == Swapping(device.primary) && !HandsOnlyAccepted(kind, device, w)
  {
    var approve, tx, back := Swapping(device.primary), Tx(message, 1), Tx(BareMessage(device.primary), 1);
    var plan := Plan(false, false, Some(tx), true, false, false, None);
    assert back.message.staticKeys[0] == device.primary && AsksPrimary(kind, back, device);
    assert approve(0, tx) == Some(back);
    assert Live(kind, plan) && Within(kind, device, plan, tx) && !Within(kind, device, plan, back);
    HandsOnlyAcceptedIff(kind, device, approve);
    assert !ReturnsWithin(kind, device, approve);
  }

  /** On the device as shipped: a step it accepts, and a message it would refuse put before the primary all the same. */
  lemma UnreadMessageIsSigned(kind: WalkKind, settings: Key, primary: Key, approval: Key)
    requires kind == Provisioning || kind == LimitChange || kind == RecoveryChange
    ensures exists w: World :: w.approve == Swapping(primary)
                               && !HandsOnlyAccepted(kind, Shipped(Vault(settings), primary, approval), w)
  {
    var device := Shipped(Vault(settings), primary, approval);
    forall plan
      ensures device.accepts(ApprovalMessage(settings, approval, 1), Bounds(kind, plan, device))
      ensures !device.accepts(BareMessage(primary), Bounds(kind, plan, device))
    {
      ApprovalIsAccepted(settings, approval, 1, Bounds(kind, plan, device));
    }
    UnreadIsSigned(kind, device, ApprovalMessage(settings, approval, 1));
  }
}
