/**
 * What a description tells of its message: which instructions are recognised as what,
 * when they add up to a change, a vote or a payment, and what the context adds.
 */
module Readings {
  import opened Wrappers
  import opened Keys
  import opened Squads
  import opened Wire
  import opened Describe
  import opened Verify

  // ---- one instruction ----

  /** An opening is a create by the associated-token program, of the account its owner and mint derive. */
  lemma OpensIff(ix: Instruction, ata: Key, owner: Key, mint: Key)
    ensures DecodeInstruction(ix) == DOpen(ata, owner, mint) <==>
      && ix.programId == AssociatedTokenProgram && ix.data.Bytes?
      && (ix.data.bytes == [] || ix.data.bytes == [0] || ix.data.bytes == [1])
      && |ix.accounts| > 5 && ix.accounts[1] == ata && ix.accounts[2] == owner && ix.accounts[3] == mint
      && ata == TokenAccount(owner, mint, ix.accounts[5])
  {
    if ix.programId == SquadsProgram { SquadsReads(ix); }
  }

  /** Squads instructions read as changes, proposals, votes and Spends, and as nothing else. */
  lemma SquadsReads(ix: Instruction)
    requires ix.programId == SquadsProgram
    ensures var d := DecodeInstruction(ix);
            d.DPropose? || d.DProposal? || d.DVote? || d.DSpend? || d.DUnknown?
  {
    if ix.data.Args? && ix.data.args.ExecuteTransactionSyncV2? { SyncReads(ix.accounts, ix.data.args); }
  }

  lemma SyncReads(accounts: seq<Key>, args: SquadsArgs)
    requires args.ExecuteTransactionSyncV2?
    ensures var d := DecodeSquads(accounts, Args(args)); d.DSpend? || d.DUnknown?
  {
    assert DecodeSquads(accounts, Args(args))
        == DecodeSyncSpend(accounts, args.accountIndex, args.numSigners, args.payload);
    if |accounts| >= 1 && args.payload.UnderPolicy? {
      var remaining := if |accounts| < 2 then [] else accounts[2..];
      if |remaining| >= args.numSigners {
        PolicyReads(accounts[0], remaining[..args.numSigners], remaining[args.numSigners..], args.payload.payload);
      }
    }
  }

  lemma PolicyReads(consensus: Key, signers: seq<Key>, rest: seq<Key>, payload: PolicyPayload)
    ensures var d := DecodePolicySpend(consensus, signers, rest, payload); d.DSpend? || d.DUnknown?
  {
  }

  /** Compute-budget instructions are let through exactly when they are one of the four harmless ones. */
  lemma ComputeBudgetIff(ix: Instruction)
    ensures DecodeInstruction(ix) == DComputeBudget <==>
      && ix.programId == ComputeBudgetProgram && ix.data.Bytes? && ix.data.bytes != []
      && 1 <= ix.data.bytes[0] <= 4
  {
    if ix.programId == SquadsProgram { SquadsReads(ix); }
  }

  /** A lamport transfer: the System program's tag 2, from its first account to its second. */
  predicate SendsLamports(ix: Instruction, from: Key, to: Key, amount: nat) {
    && ix.programId == SystemProgram && ix.data.Bytes? && |ix.data.bytes| == 12 && |ix.accounts| > 1
    && ReadLittleEndian(ix.data.bytes[..4]) == 2 && ReadLittleEndian(ix.data.bytes[4..]) == amount
    && ix.accounts[0] == from && ix.accounts[1] == to
  }

  /** A checked token transfer: tag 12 of either token program, on its fourth account's say to its third. */
  predicate SendsTokens(ix: Instruction, authority: Key, to: Key, mint: Key, amount: nat) {
    && (ix.programId == TokenProgram || ix.programId == Token2022Program)
    && ix.data.Bytes? && |ix.data.bytes| == 10 && |ix.accounts| > 3
    && ix.data.bytes[0] == 12 && ReadLittleEndian(ix.data.bytes[1..9]) == amount
    && ix.accounts[3] == authority && ix.accounts[2] == to && ix.accounts[1] == mint
  }

  lemma TransfersIff(ix: Instruction, t: TransferDescription)
    ensures DecodeInstruction(ix) == DTransfer(t) <==>
      !t.opensTokenAccount
      && match t.mint
         case Sol => t.destinationTokenAccount.None? && t.destination.Some?
                     && SendsLamports(ix, t.source, t.destination.value, t.amount)
         case Token(mint) => t.destination.None? && t.destinationTokenAccount.Some?
                             && SendsTokens(ix, t.source, t.destinationTokenAccount.value, mint, t.amount)
  {
    if ix.programId == SquadsProgram { SquadsReads(ix); }
  }

  /** The Squads instruction a vote of each kind is. */
  function VoteArgs(kind: VoteKind): SquadsArgs {
    match kind
    case Approve => ApproveProposal
    case Reject => RejectProposal
    case ExecuteChange => ExecuteSettingsTransaction
  }

  /** A vote is one of three Squads instructions, naming Settings, signer and proposal in that order. */
  lemma VotesIff(ix: Instruction, settings: Key, proposal: Key, kind: VoteKind, signer: Key)
    ensures DecodeInstruction(ix) == DVote(settings, proposal, Vote(kind, signer)) <==>
      && ix.programId == SquadsProgram && ix.data == Args(VoteArgs(kind)) && |ix.accounts| > 2
      && ix.accounts[0] == settings && ix.accounts[1] == signer && ix.accounts[2] == proposal
  {
    if ix.programId == SquadsProgram && ix.data.Args? {
      SquadsVotes(ix.accounts, ix.data.args, settings, proposal, kind, signer);
    }
  }

  lemma SquadsVotes(accounts: seq<Key>, args: SquadsArgs, settings: Key, proposal: Key, kind: VoteKind, signer: Key)
    ensures DecodeSquads(accounts, Args(args)) == DVote(settings, proposal, Vote(kind, signer)) <==>
      args == VoteArgs(kind) && |accounts| > 2
      && accounts[0] == settings && accounts[1] == signer && accounts[2] == proposal
  {
    if args.ExecuteTransactionSyncV2? { SyncReads(accounts, args); }
  }

  /** A change is a Squads instruction, naming Settings, its own address and who proposes it in that order. */
  lemma ProposesIff(ix: Instruction, settings: Key, address: Key, proposer: Key, actions: seq<SettingsAction>)
    ensures DecodeInstruction(ix) == DPropose(settings, address, proposer, actions) <==>
      && ix.programId == SquadsProgram && ix.data == Args(CreateSettingsTransaction(actions)) && |ix.accounts| > 2
      && ix.accounts[0] == settings && ix.accounts[1] == address && ix.accounts[2] == proposer
  {
    if ix.programId == SquadsProgram && ix.data.Args? {
      SquadsProposes(ix.accounts, ix.data.args, settings, address, proposer, actions);
    }
  }

  lemma SquadsProposes(accounts: seq<Key>, args: SquadsArgs, settings: Key, address: Key, proposer: Key,
                       actions: seq<SettingsAction>)
    ensures DecodeSquads(accounts, Args(args)) == DPropose(settings, address, proposer, actions) <==>
      args == CreateSettingsTransaction(actions) && |accounts| > 2
      && accounts[0] == settings && accounts[1] == address && accounts[2] == proposer
  {
    if args.ExecuteTransactionSyncV2? { SyncReads(accounts, args); }
  }

  /** So is its proposal, naming Settings and its own address, at an index of its own. */
  lemma ProposalsIff(ix: Instruction, settings: Key, address: Key, index: nat)
    ensures DecodeInstruction(ix) == DProposal(settings, address, index) <==>
      && ix.programId == SquadsProgram && ix.data == Args(CreateProposal(index)) && |ix.accounts| > 1
      && ix.accounts[0] == settings && ix.accounts[1] == address
  {
    if ix.programId == SquadsProgram && ix.data.Args? {
      SquadsProposals(ix.accounts, ix.data.args, settings, address, index);
    }
  }

  lemma SquadsProposals(accounts: seq<Key>, args: SquadsArgs, settings: Key, address: Key, index: nat)
    ensures DecodeSquads(accounts, Args(args)) == DProposal(settings, address, index) <==>
      args == CreateProposal(index) && |accounts| > 1 && accounts[0] == settings && accounts[1] == address
  {
    if args.ExecuteTransactionSyncV2? { SyncReads(accounts, args); }
  }

  // ---- a settings message ----

  /** The one change of a message, with its proposal and its votes all on it, on this vault's own Settings. */
  ghost predicate IsOneChange(d: seq<Decoded>, context: Context, p: Propose, index: nat) {
    && Proposes(d) == [p]
    && Proposals(d) == [DProposal(p.settings, ProposalAddress(p.settings, index), index)]
    && p.transaction == TransactionAddress(p.settings, index)
    && (forall v :: v in Votings(d) ==> v.consensus == p.settings && v.proposal == ProposalAddress(p.settings, index))
    && Spends(d) == [] && Transfers(d) == [] && Opens(d) == []
    && Vault(p.settings) == context.vault && (context.settings.None? || context.settings == Some(p.settings))
  }

  /** A message reads as a change exactly when it carries one, whole, and nothing that moves money. */
  lemma ChangesIff(ixs: seq<Instruction>, context: Context, settings: Key, vault: Key, index: nat, proposer: Key,
                   actions: seq<DescribedAction>, votes: seq<Vote>)
    ensures DescribeInstructions(ixs, context) == SettingsChange(settings, vault, index, proposer, actions, votes) <==>
      var d := DecodeEach(ixs);
      && DUnknown !in d && vault == context.vault && votes == VotesOf(Votings(d))
      && exists p: Propose :: IsOneChange(d, context, p, index)
           && p.settings == settings && p.proposer == proposer && actions == DescribeActions(p.actions, settings)
  {
    var d := DecodeEach(ixs);
    if DescribeInstructions(ixs, context) == SettingsChange(settings, vault, index, proposer, actions, votes) {
      assert Proposes(d) == [Proposes(d)[0]] && Proposals(d) == [Proposals(d)[0]];
      assert IsOneChange(d, context, Proposes(d)[0], index);
    }
  }

  /** Votes and nothing else, at least one, all on one proposal of this vault's own Settings. */
  ghost predicate AreVotesOnly(d: seq<Decoded>, context: Context, settings: Key, proposal: Key) {
    && DUnknown !in d && Votings(d) != []
    && (forall v :: v in Votings(d) ==> v.consensus == settings && v.proposal == proposal)
    && Proposes(d) == [] && Proposals(d) == [] && Spends(d) == [] && Transfers(d) == [] && Opens(d) == []
    && Vault(settings) == context.vault && (context.settings.None? || context.settings == Some(settings))
  }

  /** A message reads as votes exactly when it only votes, at least once, and every vote is on one proposal. */
  lemma VotesAloneIff(ixs: seq<Instruction>, context: Context, settings: Key, vault: Key, proposal: Key,
                      votes: seq<Vote>)
    ensures DescribeInstructions(ixs, context) == VotesOn(settings, vault, proposal, votes) <==>
      && AreVotesOnly(DecodeEach(ixs), context, settings, proposal)
      && votes == VotesOf(Votings(DecodeEach(ixs))) && vault == context.vault
  {
    var d := DecodeEach(ixs);
    if DUnknown !in d { VotesAssembleIff(d, context, settings, vault, proposal, votes); }
  }

  lemma VotesAssembleIff(d: seq<Decoded>, context: Context, settings: Key, vault: Key, proposal: Key, votes: seq<Vote>)
    requires DUnknown !in d
    ensures Assemble(d, context) == VotesOn(settings, vault, proposal, votes) <==>
      && AreVotesOnly(d, context, settings, proposal) && votes == VotesOf(Votings(d)) && vault == context.vault
  {
    if Votings(d) != [] { assert Votings(d)[0] in Votings(d); }
  }

  // ---- a bare transfer ----

  /** Nothing opened beside a payment, or the one account it pays, for whoever it says it pays if it says. */
  predicate Opened(opens: seq<Open>, t: TransferDescription, owner: Option<Key>) {
    if opens == [] then owner == t.destination
    else
      && |opens| == 1 && t.mint == Token(opens[0].mint) && t.destinationTokenAccount == Some(opens[0].ata)
      && owner == Some(opens[0].owner) && (t.destination.None? || t.destination == owner)
  }

  /** A message reads as a transfer exactly when that is all it is, but for an opening of the account it pays. */
  lemma BareTransfersIff(ixs: seq<Instruction>, context: Context, t: TransferDescription)
    ensures DescribeInstructions(ixs, context) == TransferOf(t) <==>
      var d := DecodeEach(ixs);
      && DUnknown !in d && Proposes(d) == [] && Proposals(d) == [] && Votings(d) == [] && Spends(d) == []
      && |Transfers(d)| == 1 && Opened(Opens(d), Transfers(d)[0], t.destination)
      && t == Transfers(d)[0].(destination := t.destination, opensTokenAccount := Opens(d) != [])
  {
  }

  // ---- what the context adds ----

  /** How a Spend is named once the Account's policies are known. */
  function Named(s: SpendDescription, context: Context): RouteName {
    if Vault(s.consensus) == context.vault then SettingsRoute
    else
      match (context.spendingLimitPolicy, context.aboveLimitPolicy)
      case (Some(limit), _) =>
        if s.consensus == limit then SpendingLimitRoute
        else if context.aboveLimitPolicy.Some? && s.consensus == context.aboveLimitPolicy.value then AboveLimitRoute
        else s.route
      case (None, Some(above)) => if s.consensus == above then AboveLimitRoute else s.route
      case _ => s.route
  }

  /**
   * Beyond the vault, a context names the route of a Spend, and refuses a change or a
   * vote of other Settings than the ones it knows. It alters nothing else.
   */
  lemma ContextOnlyNames(ixs: seq<Instruction>, context: Context)
    ensures var plain := DescribeInstructions(ixs, PlainContext(context.vault));
            DescribeInstructions(ixs, context) ==
              match plain
              case SpendOf(s) => SpendOf(s.(route := Named(s, context)))
              case SettingsChange(settings, _, _, _, _, _) =>
                if context.settings.None? || context.settings.value == settings then plain else Unknown
              case VotesOn(settings, _, _, _) =>
                if context.settings.None? || context.settings.value == settings then plain else Unknown
              case _ => plain
  {
  }

  // ---- the message itself ----

  /** An instruction with every index looked up. */
  predicate LooksUp(c: CompiledInstruction, keys: seq<Key>, ix: Instruction) {
    && c.programIdIndex < |keys| && ix.programId == keys[c.programIdIndex] && ix.data == c.data
    && |ix.accounts| == |c.accountIndices|
    && forall j :: 0 <= j < |c.accountIndices| ==>
         c.accountIndices[j] < |keys| && ix.accounts[j] == keys[c.accountIndices[j]]
  }

  lemma LooksUpIff(c: CompiledInstruction, keys: seq<Key>, ix: Instruction)
    ensures LooksUp(c, keys, ix) <==> OnMessage(c, keys) && ix == ResolveInstruction(c, keys)
  {
    if LooksUp(c, keys, ix) {
      forall i | i in c.accountIndices ensures i < |keys| {
        var j :| 0 <= j < |c.accountIndices| && c.accountIndices[j] == i;
      }
      assert ix.accounts == ResolveInstruction(c, keys).accounts;
    }
    if OnMessage(c, keys) {
      forall j | 0 <= j < |c.accountIndices| ensures c.accountIndices[j] in c.accountIndices {}
    }
  }

  /** A message is read exactly when it is a v0 one, its tables are resolved, and every index is on it. */
  lemma ResolvedIff(m: Message, context: Context, ixs: seq<Instruction>)
    ensures Resolved(m, context) == Some(ixs) <==>
      && m.isV0 && (m.lookups != 0 ==> context.lookupKeys.Some? && context.lookupKeys.value != [])
      && var keys := m.staticKeys + (if m.lookups == 0 then [] else context.lookupKeys.value);
      && |ixs| == |m.instructions|
      && forall i :: 0 <= i < |ixs| ==> LooksUp(m.instructions[i], keys, ixs[i])
  {
    if m.isV0 && (m.lookups != 0 ==> context.lookupKeys.Some? && context.lookupKeys.value != []) {
      var keys := m.staticKeys + (if m.lookups == 0 then [] else context.lookupKeys.value);
      assert m.staticKeys + [] == m.staticKeys;
      KeysResolve(m, context, keys, ixs);
    }
  }

  lemma KeysResolve(m: Message, context: Context, keys: seq<Key>, ixs: seq<Instruction>)
    requires m.isV0 && AccountKeys(m, context) == Some(keys)
    ensures Resolved(m, context) == Some(ixs) <==>
      |ixs| == |m.instructions| && forall i :: 0 <= i < |ixs| ==> LooksUp(m.instructions[i], keys, ixs[i])
  {
    var r := Resolved(m, context);
    if r.Some? {
      forall i | 0 <= i < |r.value| ensures LooksUp(m.instructions[i], keys, r.value[i]) {
        assert m.instructions[i] in m.instructions;
        LooksUpIff(m.instructions[i], keys, r.value[i]);
      }
    }
    if |ixs| == |m.instructions| && forall i :: 0 <= i < |ixs| ==> LooksUp(m.instructions[i], keys, ixs[i]) {
      forall i | 0 <= i < |ixs|
        ensures OnMessage(m.instructions[i], keys) && ixs[i] == ResolveInstruction(m.instructions[i], keys)
      {
        LooksUpIff(m.instructions[i], keys, ixs[i]);
      }
      assert r.Some? && r.value == ixs;
    }
  }

  /** A message that cannot be read is Unknown, and one that can is described by its instructions alone. */
  lemma OnlyWhatIsRead(m: Message, context: Context)
    ensures DescribeMessage(m, context)
         == if Resolved(m, context).None? then Unknown else DescribeInstructions(Resolved(m, context).value, context)
  {
  }

  /** A rule of programs is shown as naming programs only exactly when no constraint of it says more. */
  lemma ProgramOnlyIff(payload: Payload, signers: seq<Signer>, threshold: nat, timeLock: nat)
    requires payload.ProgramInteractionPayload?
    ensures var terms := DescribeTerms(payload, signers, threshold, timeLock);
            && terms.ProgramTerms? && |terms.allowedPrograms| == |payload.constraints|
            && (terms.programOnly <==> forall i :: 0 <= i < |payload.constraints| ==>
                  payload.constraints[i].accountRules == 0 && payload.constraints[i].dataRules == 0)
  {
    forall i | 0 <= i < |payload.constraints| ensures payload.constraints[i] in payload.constraints {}
  }
}
