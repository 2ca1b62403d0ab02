/**
 * What a message would do, read off its instructions: one payment or one settings
 * change the reading recognises in full, or Unknown.
 */
module Describe {
  import opened Wrappers
  import opened Keys
  import opened Squads
  import opened Wire

  datatype Mint = Sol | Token(key: Key)

  function MintOf(key: Key): Mint {
    if key == NATIVE_MINT then Sol else Token(key)
  }

  datatype RouteName = SpendingLimitRoute | AboveLimitRoute | SettingsRoute

  datatype SpendDescription = SpendDescription(
    vault: Key,
    consensus: Key,
    route: RouteName,
    signers: seq<Key>,
    destination: Option<Key>,
    destinationTokenAccount: Option<Key>,
    mint: Mint,
    amount: nat,
    decimals: Option<nat>,
    opensTokenAccount: bool)

  datatype TransferDescription = TransferDescription(
    source: Key,
    destination: Option<Key>,
    destinationTokenAccount: Option<Key>,
    mint: Mint,
    amount: nat,
    opensTokenAccount: bool)

  datatype VoteKind = Approve | Reject | ExecuteChange
  datatype Vote = Vote(kind: VoteKind, signer: Key)

  datatype PolicyTerms =
    | LimitTerms(
        mint: Mint, maxPerUse: nat, maxPerPeriod: nat, period: Period, destinations: seq<Key>,
        signers: seq<Key>, threshold: nat, timeLock: nat)
    | ProgramTerms(allowedPrograms: seq<Key>, programOnly: bool, signers: seq<Key>, threshold: nat, timeLock: nat)
    | OtherTerms(name: string, signers: seq<Key>, threshold: nat, timeLock: nat)

  datatype DescribedAction =
    | AddsSigner(key: Key, permissions: Mask)
    | RemovesSigner(key: Key)
    | SetsTimeLock(seconds: nat)
    | ChangesThreshold(threshold: nat)
    | CreatesPolicy(policy: Key, seed: nat, terms: PolicyTerms)
    | UpdatesPolicy(policy: Key, terms: PolicyTerms)
    | RemovesPolicy(policy: Key)
    | OtherDescribed(name: string)

  datatype Description =
    | SpendOf(spend: SpendDescription)
    | SettingsChange(
        settings: Key, vault: Key, transactionIndex: nat, proposer: Key,
        actions: seq<DescribedAction>, votes: seq<Vote>)
    | VotesOn(settings: Key, vault: Key, proposal: Key, votes: seq<Vote>)
    | TransferOf(transfer: TransferDescription)
    | Unknown

  datatype Context = Context(
    vault: Key,
    settings: Option<Key>,
    spendingLimitPolicy: Option<Key>,
    aboveLimitPolicy: Option<Key>,
    /** The keys the lookup tables add after the static ones, when they were resolved. */
    lookupKeys: Option<seq<Key>>)

  // ---- one instruction ----

  datatype Decoded =
    | DSpend(spend: SpendDescription)
    | DPropose(settings: Key, transaction: Key, proposer: Key, actions: seq<SettingsAction>)
    | DProposal(consensus: Key, proposal: Key, transactionIndex: nat)
    | DVote(consensus: Key, proposal: Key, vote: Vote)
    | DTransfer(transfer: TransferDescription)
    | DOpen(ata: Key, owner: Key, mint: Key)
    | DComputeBudget
    | DUnknown

  function DecodeInstruction(ix: Instruction): Decoded
    decreases ix.data.Args?, 5
  {
    if ix.programId == SquadsProgram then DecodeSquads(ix.accounts, ix.data)
    else if ix.data.Args? then DUnknown
    else if ix.programId == SystemProgram then DecodeSystem(ix.accounts, ix.data.bytes)
    else if IsTokenProgram(ix.programId) then DecodeToken(ix.accounts, ix.data.bytes)
    else if ix.programId == AssociatedTokenProgram then DecodeAssociatedToken(ix.accounts, ix.data.bytes)
    else if ix.programId == ComputeBudgetProgram then
      if |ix.data.bytes| > 0 && ix.data.bytes[0] in {1, 2, 3, 4} then DComputeBudget else DUnknown
    else DUnknown
  }

  function DecodeSquads(accounts: seq<Key>, data: Data): Decoded
    decreases data.Args?, 4
  {
    if data.Bytes? then DUnknown
    else
      match data.args
      case CreateSettingsTransaction(actions) =>
        if |accounts| < 3 then DUnknown else DPropose(accounts[0], accounts[1], accounts[2], actions)
      case CreateProposal(index) =>
        if |accounts| < 2 then DUnknown else DProposal(accounts[0], accounts[1], index)
      case ApproveProposal =>
        if |accounts| < 3 then DUnknown else DVote(accounts[0], accounts[2], Vote(Approve, accounts[1]))
      case RejectProposal =>
        if |accounts| < 3 then DUnknown else DVote(accounts[0], accounts[2], Vote(Reject, accounts[1]))
      case ExecuteSettingsTransaction =>
        if |accounts| < 3 then DUnknown else DVote(accounts[0], accounts[2], Vote(ExecuteChange, accounts[1]))
      case ExecuteTransactionSyncV2(accountIndex, numSigners, payload) =>
        DecodeSyncSpend(accounts, accountIndex, numSigners, payload)
      case OtherArgs => DUnknown
  }

  function DecodeSyncSpend(accounts: seq<Key>, accountIndex: nat, numSigners: nat, payload: SyncPayload): Decoded
    decreases true, 3
  {
    if |accounts| < 1 || accountIndex != PRIMARY_ACCOUNT_INDEX || payload.RawTransaction? then DUnknown
    else
      var remaining := if |accounts| < 2 then [] else accounts[2..];
      if |remaining| < numSigners then DUnknown
      else
        var signers, rest := remaining[..numSigners], remaining[numSigners..];
        DecodePolicySpend(accounts[0], signers, rest, payload.payload)
  }

  function DecodePolicySpend(consensus: Key, signers: seq<Key>, rest: seq<Key>, payload: PolicyPayload): Decoded
    decreases true, 2
  {
    match payload
    case SpendUnderLimit(amount, destination, decimals) =>
      DecodeLimitSpend(consensus, signers, rest, amount, destination, decimals)
    case Interaction(_, transaction) => DecodeAboveLimitSpend(consensus, signers, rest, transaction)
    case OtherPolicyPayload(_) => DUnknown
  }

  function DecodeLimitSpend(
    consensus: Key, signers: seq<Key>, rest: seq<Key>, amount: nat, destination: Key, decimals: nat): Decoded
  {
    if |rest| == 3 && rest[2] == SystemProgram then
      DSpend(SpendDescription(rest[0], consensus, SpendingLimitRoute, signers, Some(rest[1]), None,
                              Sol, amount, Some(decimals), false))
    else if |rest| != 5 || rest[1] != TokenAccount(rest[0], rest[3], rest[4]) then DUnknown
    else
      DSpend(SpendDescription(rest[0], consensus, SpendingLimitRoute, signers, Some(destination), Some(rest[2]),
                              Token(rest[3]), amount, Some(decimals), false))
  }

  function DecodeAboveLimitSpend(
    consensus: Key, signers: seq<Key>, rest: seq<Key>, transaction: TransactionPayload): Decoded
    decreases true, 1
  {
    if transaction.AsyncTransaction? || transaction.accountIndex != PRIMARY_ACCOUNT_INDEX then DUnknown
    else
      match ParseInner(transaction.instructions, rest)
      case None => DUnknown
      case Some(inner) =>
        if |inner| != 1 then DUnknown
        else
          match DecodeInstruction(Instruction(inner[0].programId, inner[0].accounts, Bytes(inner[0].data)))
          case DTransfer(t) =>
            DSpend(SpendDescription(t.source, consensus, AboveLimitRoute, signers, t.destination,
                                    t.destinationTokenAccount, t.mint, t.amount,
                                    if t.mint == Sol then Some(9) else None, false))
          case _ => DUnknown
  }

  function DecodeSystem(accounts: seq<Key>, data: seq<byte>): Decoded {
    if |data| != 12 || ReadLittleEndian(data[..4]) != 2 || |accounts| < 2 then DUnknown
    else DTransfer(TransferDescription(accounts[0], Some(accounts[1]), None, Sol, ReadLittleEndian(data[4..]), false))
  }

  function DecodeToken(accounts: seq<Key>, data: seq<byte>): Decoded {
    if |data| != 10 || data[0] != 12 || |accounts| < 4 then DUnknown
    else DTransfer(TransferDescription(accounts[3], None, Some(accounts[2]), Token(accounts[1]),
                                       ReadLittleEndian(data[1..9]), false))
  }

  function DecodeAssociatedToken(accounts: seq<Key>, data: seq<byte>): Decoded {
    var create := |data| == 0 || (|data| == 1 && (data[0] == 0 || data[0] == 1));
    if !create || |accounts| < 6 || accounts[1] != TokenAccount(accounts[2], accounts[3], accounts[5]) then DUnknown
    else DOpen(accounts[1], accounts[2], accounts[3])
  }

  // ---- the whole message ----

  function Spends(d: seq<Decoded>): seq<SpendDescription> {
    if d == [] then [] else (if d[0].DSpend? then [d[0].spend] else []) + Spends(d[1..])
  }

  function Transfers(d: seq<Decoded>): seq<TransferDescription> {
    if d == [] then [] else (if d[0].DTransfer? then [d[0].transfer] else []) + Transfers(d[1..])
  }

  type Propose = p: Decoded | p.DPropose? witness DPropose(SystemProgram, SystemProgram, SystemProgram, [])
  type Proposal = p: Decoded | p.DProposal? witness DProposal(SystemProgram, SystemProgram, 0)
  type Voting = p: Decoded | p.DVote? witness DVote(SystemProgram, SystemProgram, Vote(Approve, SystemProgram))
  type Open = p: Decoded | p.DOpen? witness DOpen(SystemProgram, SystemProgram, SystemProgram)

  function Proposes(d: seq<Decoded>): seq<Propose> {
    if d == [] then [] else (if d[0].DPropose? then [d[0]] else []) + Proposes(d[1..])
  }

  function Proposals(d: seq<Decoded>): seq<Proposal> {
    if d == [] then [] else (if d[0].DProposal? then [d[0]] else []) + Proposals(d[1..])
  }

  function Votings(d: seq<Decoded>): seq<Voting> {
    if d == [] then [] else (if d[0].DVote? then [d[0]] else []) + Votings(d[1..])
  }

  function Opens(d: seq<Decoded>): seq<Open> {
    if d == [] then [] else (if d[0].DOpen? then [d[0]] else []) + Opens(d[1..])
  }

  /** Who is paid and whether an account is adopts for them, or None when the opening is not this transfer's. */
  function AdoptOpened(destination: Option<Key>, tokenAccount: Option<Key>, mint: Mint, opens: seq<Open>)
    : Option<(Option<Key>, bool)>
  {
    if |opens| == 0 then Some((destination, false))
    else if |opens| > 1 then None
    else
      var open := opens[0];
      if mint == Sol || open.mint != mint.key || tokenAccount != Some(open.ata) then None
      else if destination.Some? && destination.value != open.owner then None
      else Some((Some(open.owner), true))
  }

  function RouteOf(spend: SpendDescription, context: Context): RouteName {
    if Vault(spend.consensus) == context.vault then SettingsRoute
    else if context.spendingLimitPolicy == Some(spend.consensus) then SpendingLimitRoute
    else if context.aboveLimitPolicy == Some(spend.consensus) then AboveLimitRoute
    else spend.route
  }

  predicate Owned(settings: Key, context: Context) {
    && (context.settings.Some? ==> context.settings.value == settings)
    && Vault(settings) == context.vault
  }

  function DescribeTerms(payload: Payload, signers: seq<Signer>, threshold: nat, timeLock: nat): PolicyTerms {
    var keys := Map((x: Signer) => x.key, signers);
    match payload
    case SpendingLimitPayload(mint, _, _, period, _, maxPerPeriod, maxPerUse, _, destinations) =>
      LimitTerms(MintOf(mint), maxPerUse, maxPerPeriod, period, destinations, keys, threshold, timeLock)
    case ProgramInteractionPayload(_, constraints) =>
      ProgramTerms(Map((c: Constraint) => c.programId, constraints),
                   forall c :: c in constraints ==> c.accountRules == 0 && c.dataRules == 0,
                   keys, threshold, timeLock)
    case OtherPayload(name) => OtherTerms(name, keys, threshold, timeLock)
  }

  function DescribeAction(action: SettingsAction, settings: Key): DescribedAction {
    match action
    case AddSigner(s) => AddsSigner(s.key, s.mask)
    case RemoveSigner(k) => RemovesSigner(k)
    case SetTimeLock(seconds) => SetsTimeLock(seconds)
    case ChangeThreshold(n) => ChangesThreshold(n)
    case PolicyCreate(seed, payload, signers, threshold, timeLock) =>
      CreatesPolicy(PolicyAddress(settings, seed), seed, DescribeTerms(payload, signers, threshold, timeLock))
    case PolicyUpdate(policy, payload, signers, threshold, timeLock) =>
      UpdatesPolicy(policy, DescribeTerms(payload, signers, threshold, timeLock))
    case PolicyRemove(policy) => RemovesPolicy(policy)
    case OtherAction(name) => OtherDescribed(name)
  }

  function DescribeActions(actions: seq<SettingsAction>, settings: Key): (r: seq<DescribedAction>)
    ensures |r| == |actions|
    ensures forall i :: 0 <= i < |r| ==> r[i] == DescribeAction(actions[i], settings)
  {
    Map(a => DescribeAction(a, settings), actions)
  }

  function VotesOf(votes: seq<Voting>): (r: seq<Vote>)
    ensures |r| == |votes|
    ensures forall i :: 0 <= i < |r| ==> r[i] == votes[i].vote
  {
    Map((v: Voting) => v.vote, votes)
  }

  function AssembleSettingsChange(
    proposes: seq<Propose>, proposals: seq<Proposal>, votes: seq<Voting>, context: Context): Description
  {
    if |proposes| != 1 || |proposals| != 1 then Unknown
    else
      var p, q := proposes[0], proposals[0];
      var proposal := ProposalAddress(p.settings, q.transactionIndex);
      if !Owned(p.settings, context) || q.consensus != p.settings then Unknown
      else if p.transaction != TransactionAddress(p.settings, q.transactionIndex) || q.proposal != proposal then Unknown
      else if exists v :: v in votes && (v.consensus != p.settings || v.proposal != proposal) then Unknown
      else SettingsChange(p.settings, context.vault, q.transactionIndex, p.proposer,
                          DescribeActions(p.actions, p.settings), VotesOf(votes))
  }

  function AssembleVotes(votes: seq<Voting>, context: Context): Description
    requires |votes| > 0
  {
    var settings, proposal := votes[0].consensus, votes[0].proposal;
    if !Owned(settings, context) then Unknown
    else if exists v :: v in votes && (v.consensus != settings || v.proposal != proposal) then Unknown
    else VotesOn(settings, context.vault, proposal, VotesOf(votes))
  }

  function Assemble(d: seq<Decoded>, context: Context): Description {
    if Proposes(d) != [] then
      if Spends(d) != [] || Transfers(d) != [] || Opens(d) != [] then Unknown
      else AssembleSettingsChange(Proposes(d), Proposals(d), Votings(d), context)
    else if Spends(d) != [] then
      if |Spends(d)| > 1 || Proposals(d) != [] || Votings(d) != [] || Transfers(d) != [] then Unknown
      else
        var spend := Spends(d)[0];
        match AdoptOpened(spend.destination, spend.destinationTokenAccount, spend.mint, Opens(d))
        case None => Unknown
        case Some((destination, adopts)) =>
          if spend.vault != context.vault then Unknown
          else SpendOf(spend.(destination := destination, opensTokenAccount := adopts,
                              route := RouteOf(spend, context)))
    else if Votings(d) != [] then
      if Proposals(d) != [] || Transfers(d) != [] || Opens(d) != [] then Unknown
      else AssembleVotes(Votings(d), context)
    else if |Transfers(d)| == 1 && Proposals(d) == [] then
      var t := Transfers(d)[0];
      match AdoptOpened(t.destination, t.destinationTokenAccount, t.mint, Opens(d))
      case None => Unknown
      case Some((destination, adopts)) => TransferOf(t.(destination := destination, opensTokenAccount := adopts))
    else Unknown
  }

  function DecodeEach(ixs: seq<Instruction>): (r: seq<Decoded>)
    ensures |r| == |ixs|
    ensures forall i :: 0 <= i < |r| ==> r[i] == DecodeInstruction(ixs[i])
  {
    Map(ix => DecodeInstruction(ix), ixs)
  }

  function DescribeInstructions(ixs: seq<Instruction>, context: Context): Description {
    var d := DecodeEach(ixs);
    if DUnknown in d then Unknown else Assemble(d, context)
  }

  // ---- reading the message ----

  datatype CompiledInstruction = CompiledInstruction(programIdIndex: nat, accountIndices: seq<nat>, data: Data)

  datatype Message = Message(isV0: bool, staticKeys: seq<Key>, lookups: nat, instructions: seq<CompiledInstruction>)

  /** The keys a message's indices count through, or None when its lookup tables were not resolved. */
  function AccountKeys(m: Message, context: Context): Option<seq<Key>> {
    if m.lookups == 0 then Some(m.staticKeys)
    else if context.lookupKeys.None? || context.lookupKeys.value == [] then None
    else Some(m.staticKeys + context.lookupKeys.value)
  }

  predicate OnMessage(c: CompiledInstruction, keys: seq<Key>) {
    c.programIdIndex < |keys| && forall i :: i in c.accountIndices ==> i < |keys|
  }

  function ResolveInstruction(c: CompiledInstruction, keys: seq<Key>): Instruction
    requires OnMessage(c, keys)
  {
    Instruction(
      keys[c.programIdIndex],
      seq(|c.accountIndices|,
          j requires 0 <= j < |c.accountIndices| =>
              assert c.accountIndices[j] in c.accountIndices; keys[c.accountIndices[j]]),
      c.data)
  }

  /** The message's instructions with every key looked up, or None when one names a key off it. */
  function Resolved(m: Message, context: Context): Option<seq<Instruction>> {
    var keys := AccountKeys(m, context);
    if !m.isV0 || keys.None? then None
    else if exists c :: c in m.instructions && !OnMessage(c, keys.value) then None
    else Some(seq(|m.instructions|,
                  i requires 0 <= i < |m.instructions| =>
                    assert m.instructions[i] in m.instructions; ResolveInstruction(m.instructions[i], keys.value)))
  }

  function DescribeMessage(m: Message, context: Context): Description {
    match Resolved(m, context)
    case None => Unknown
    case Some(ixs) => DescribeInstructions(ixs, context)
  }

  method LookUpAccounts(indices: seq<nat>, keys: seq<Key>) returns (r: Option<seq<Key>>)
    ensures r.Some? <==> forall i :: i in indices ==> i < |keys|
    ensures r.Some? ==> |r.value| == |indices| && forall j :: 0 <= j < |indices| ==>
              indices[j] < |keys| && r.value[j] == keys[indices[j]]
  {
    var accounts: seq<Key> := [];
    for j := 0 to |indices|
      invariant |accounts| == j
      invariant forall k :: 0 <= k < j ==> indices[k] < |keys| && accounts[k] == keys[indices[k]]
    {
      if indices[j] >= |keys| {
        assert indices[j] in indices;
        return None;
      }
      accounts := accounts + [keys[indices[j]]];
    }
    r := Some(accounts);
  }

  /** The walk itself: stop at the first instruction that cannot be looked up or read. */
  method DescribeTransaction(m: Message, context: Context) returns (r: Description)
    ensures r == DescribeMessage(m, context)
  {
    if !m.isV0 { return Unknown; }
    var found := AccountKeys(m, context);
    if found.None? { return Unknown; }
    var keys := found.value;
    var decoded: seq<Decoded> := [];
    for i := 0 to |m.instructions|
      invariant |decoded| == i
      invariant forall k :: 0 <= k < i ==> OnMessage(m.instructions[k], keys)
                                           && decoded[k]
                                              == DecodeInstruction(ResolveInstruction(m.instructions[k], keys))
                                           && decoded[k] != DUnknown
    {
      var ix := m.instructions[i];
      assert ix in m.instructions;
      if ix.programIdIndex >= |keys| { return Unknown; }
      var accounts := LookUpAccounts(ix.accountIndices, keys);
      if accounts.None? { return Unknown; }
      assert OnMessage(ix, keys);
      assert ResolveInstruction(ix, keys).accounts == accounts.value;
      var result := DecodeInstruction(Instruction(keys[ix.programIdIndex], accounts.value, ix.data));
      if result.DUnknown? {
        UnreadableIsUnknown(m, context, i);
        return Unknown;
      }
      decoded := decoded + [result];
    }
    assert forall c :: c in m.instructions ==> OnMessage(c, keys);
    assert decoded == DecodeEach(Resolved(m, context).value);
    r := Assemble(decoded, context);
  }

  lemma UnreadableIsUnknown(m: Message, context: Context, i: nat)
    requires m.isV0 && AccountKeys(m, context).Some? && i < |m.instructions|
    requires OnMessage(m.instructions[i], AccountKeys(m, context).value)
    requires DecodeInstruction(ResolveInstruction(m.instructions[i], AccountKeys(m, context).value)) == DUnknown
    ensures DescribeMessage(m, context) == Unknown
  {
    if Resolved(m, context).Some? {
      assert DecodeEach(Resolved(m, context).value)[i] == DUnknown;
    }
  }

  // ---- compute-budget instructions are invisible ----

  function WithoutComputeBudget(ixs: seq<Instruction>): seq<Instruction> {
    if ixs == [] then []
    else (if DecodeInstruction(ixs[0]).DComputeBudget? then [] else [ixs[0]]) + WithoutComputeBudget(ixs[1..])
  }

  lemma {:induction false} SortedWithoutComputeBudget(ixs: seq<Instruction>)
    ensures var d, e := DecodeEach(ixs), DecodeEach(WithoutComputeBudget(ixs));
            && Spends(d) == Spends(e) && Transfers(d) == Transfers(e) && Proposes(d) == Proposes(e)
            && Proposals(d) == Proposals(e) && Votings(d) == Votings(e) && Opens(d) == Opens(e)
            && (DUnknown in d <==> DUnknown in e)
  {
    if ixs != [] {
      var d, e := DecodeEach(ixs), DecodeEach(WithoutComputeBudget(ixs));
      SortedWithoutComputeBudget(ixs[1..]);
      assert d[1..] == DecodeEach(ixs[1..]);
      assert d == [d[0]] + d[1..];
      if d[0].DComputeBudget? {
        assert e == DecodeEach(WithoutComputeBudget(ixs[1..]));
      } else {
        assert e == [d[0]] + DecodeEach(WithoutComputeBudget(ixs[1..]));
        assert e[1..] == DecodeEach(WithoutComputeBudget(ixs[1..]));
      }
    }
  }

  /** However many there are and wherever they stand, compute-budget instructions change nothing said about the rest. */
  lemma ComputeBudgetInvisible(a: seq<Instruction>, b: seq<Instruction>, context: Context)
    requires WithoutComputeBudget(a) == WithoutComputeBudget(b)
    ensures DescribeInstructions(a, context) == DescribeInstructions(b, context)
  {
    SortedWithoutComputeBudget(a);
    SortedWithoutComputeBudget(b);
  }
}
