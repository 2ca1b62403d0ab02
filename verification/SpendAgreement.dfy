/**
 * Payments read back as they were built, and a payment accepted moves exactly
 * what it says and nothing besides.
 */
module SpendAgreement {
  import opened Wrappers
  import opened Keys
  import opened Squads
  import opened Wire
  import opened Describe
  import opened Verify
  import S = Spend

  // ---- what was built is what is read ----

  /** The description of a Spend as its request put it. */
  function Asked(
    addresses: Addresses, request: S.SpendRequest, route: S.Route, signers: seq<Key>, decimals: nat,
    tokenProgram: Option<Key>): SpendDescription
    requires request.mint == NATIVE_MINT || tokenProgram.Some?
  {
    var native := request.mint == NATIVE_MINT;
    var tokenAccount := if native then None else Some(S.DestinationTokenAccount(request, tokenProgram.value));
    match route
    case LimitRoute(policy) =>
      SpendDescription(addresses.vault, policy, SpendingLimitRoute, signers, Some(request.destination),
                       tokenAccount, MintOf(request.mint), request.amount, Some(decimals), false)
    case TwoSignature(_, policy) =>
      // A token transfer names the account it credits and not whose it is.
      SpendDescription(addresses.vault, policy, AboveLimitRoute, signers,
                       if native then Some(request.destination) else None,
                       tokenAccount, MintOf(request.mint), request.amount, if native then Some(9) else None, false)
  }

  lemma ReadSystemTransfer(from: Key, to: Key, amount: nat)
    requires amount < U64_LIMIT
    ensures DecodeSystem([from, to], S.SystemTransferBytes(amount))
         == DTransfer(TransferDescription(from, Some(to), None, Sol, amount, false))
  {
    var data := S.SystemTransferBytes(amount);
    ReadBack(S.SYSTEM_TRANSFER, 4);
    ReadBack(amount, 8);
    assert data[..4] == LittleEndian(S.SYSTEM_TRANSFER, 4);
    assert data[4..] == LittleEndian(amount, 8);
  }

  lemma ReadTransferChecked(source: Key, mint: Key, to: Key, authority: Key, amount: nat, decimals: nat)
    requires amount < U64_LIMIT && decimals < 256
    ensures DecodeToken([source, mint, to, authority], S.TransferCheckedBytes(amount, decimals))
         == DTransfer(TransferDescription(authority, None, Some(to), Token(mint), amount, false))
  {
    var data := S.TransferCheckedBytes(amount, decimals);
    ReadBack(amount, 8);
    assert data[1..9] == LittleEndian(amount, 8);
  }

  lemma ReadWrapped(t: S.Transfer, consensus: Key, signers: seq<Key>, d: TransferDescription)
    requires |t.metas| <= 4 && |t.data| < U16_LIMIT
    requires DecodeInstruction(Instruction(t.programId, S.MetaKeys(t.metas), Bytes(t.data))) == DTransfer(d)
    ensures DecodeAboveLimitSpend(consensus, signers, S.AccountTable(t),
                                  SyncTransaction(PRIMARY_ACCOUNT_INDEX, S.EncodeTransfer(t)))
         == DSpend(SpendDescription(d.source, consensus, AboveLimitRoute, signers, d.destination,
                                    d.destinationTokenAccount, d.mint, d.amount,
                                    if d.mint == Sol then Some(9) else None, false))
  {
    S.ParseTransfer(t);
  }

  lemma ReadPolicySync(policy: Key, signers: seq<Key>, payload: PolicyPayload, rest: seq<Key>)
    ensures DecodeInstruction(S.PolicySync(policy, |signers|, payload, signers + rest))
         == DecodePolicySpend(policy, signers, rest, payload)
  {
    var accounts := [policy, SquadsProgram] + (signers + rest);
    var remaining := accounts[2..];
    assert remaining == signers + rest;
    assert remaining[..|signers|] == signers;
    assert remaining[|signers|..] == rest;
    var args := ExecuteTransactionSyncV2(PRIMARY_ACCOUNT_INDEX, |signers|, UnderPolicy(payload));
    assert DecodeSquads(accounts, Args(args))
        == DecodeSyncSpend(accounts, PRIMARY_ACCOUNT_INDEX, |signers|, UnderPolicy(payload));
    assert S.PolicySync(policy, |signers|, payload, signers + rest) == Instruction(SquadsProgram, accounts, Args(args));
    assert DecodeInstruction(Instruction(SquadsProgram, accounts, Args(args))) == DecodeSquads(accounts, Args(args));
  }

  /** Both routes, every mint and amount: the built instruction reads back as what was asked. */
  lemma BuiltSpendReadsBack(
    addresses: Addresses, request: S.SpendRequest, route: S.Route, signers: seq<Key>, decimals: nat,
    tokenProgram: Option<Key>, allowed: seq<Key>)
    requires S.Buildable(request, route, signers, decimals, tokenProgram, allowed)
    requires request.mint == NATIVE_MINT || (tokenProgram.Some? && IsTokenProgram(tokenProgram.value))
    ensures DecodeInstruction(S.BuildSpend(addresses, request, route, signers, decimals, tokenProgram, allowed).value)
         == DSpend(Asked(addresses, request, route, signers, decimals, tokenProgram))
  {
    if route.LimitRoute? {
      var accounts := S.SpendAccounts(addresses, request, tokenProgram).value;
      ReadPolicySync(route.policy, signers, SpendUnderLimit(request.amount, request.destination, decimals), accounts);
    } else {
      S.AboveLimitShape(addresses, request, route, signers, decimals, tokenProgram, allowed);
      var t := S.AboveLimitTransfer(addresses, request, decimals, tokenProgram).value;
      var payload := Interaction([S.ConstraintIndex(t.programId, allowed).value],
                                 SyncTransaction(PRIMARY_ACCOUNT_INDEX, S.EncodeTransfer(t)));
      ReadPolicySync(route.policy, signers, payload, S.AccountTable(t));
      var d := ReadAboveLimitTransfer(addresses, request, decimals, tokenProgram);
      ReadWrapped(t, route.policy, signers, d);
    }
  }

  lemma ReadAboveLimitTransfer(addresses: Addresses, request: S.SpendRequest, decimals: nat, tokenProgram: Option<Key>)
    returns (d: TransferDescription)
    requires S.AboveLimitTransfer(addresses, request, decimals, tokenProgram).Ok?
    requires request.mint == NATIVE_MINT || (tokenProgram.Some? && IsTokenProgram(tokenProgram.value))
    ensures var t := S.AboveLimitTransfer(addresses, request, decimals, tokenProgram).value;
            DecodeInstruction(Instruction(t.programId, S.MetaKeys(t.metas), Bytes(t.data))) == DTransfer(d)
    ensures d == if request.mint == NATIVE_MINT
                 then TransferDescription(addresses.vault, Some(request.destination), None, Sol, request.amount, false)
                 else TransferDescription(addresses.vault, None,
                                          Some(S.DestinationTokenAccount(request, tokenProgram.value)),
                                          Token(request.mint), request.amount, false)
  {
    var t := S.AboveLimitTransfer(addresses, request, decimals, tokenProgram).value;
    if request.mint == NATIVE_MINT {
      ReadSystemTransfer(addresses.vault, request.destination, request.amount);
      assert S.MetaKeys(t.metas) == [addresses.vault, request.destination];
      d := TransferDescription(addresses.vault, Some(request.destination), None, Sol, request.amount, false);
    } else {
      var source := TokenAccount(addresses.vault, request.mint, tokenProgram.value);
      var to := S.DestinationTokenAccount(request, tokenProgram.value);
      ReadTransferChecked(source, request.mint, to, addresses.vault, request.amount, decimals);
      assert S.MetaKeys(t.metas) == [source, request.mint, to, addresses.vault];
      d := TransferDescription(addresses.vault, None, Some(to), Token(request.mint), request.amount, false);
    }
  }

  // ---- and accepted exactly when expected ----

  lemma AssembleOne(d: seq<Decoded>, spend: SpendDescription, context: Context)
    requires |d| == 1 && d[0] == DSpend(spend) && spend.vault == context.vault
    ensures Assemble(d, context) == SpendOf(spend.(opensTokenAccount := false, route := RouteOf(spend, context)))
  {
    assert d[1..] == [];
    assert Spends(d) == [spend];
    assert Proposes(d) == [];
    assert Proposals(d) == [];
    assert Votings(d) == [];
    assert Transfers(d) == [];
    assert Opens(d) == [];
    assert AdoptOpened(spend.destination, spend.destinationTokenAccount, spend.mint, Opens(d))
        == Some((spend.destination, false));
  }

  lemma OneSpendAssembled(ix: Instruction, spend: SpendDescription, context: Context)
    requires DecodeInstruction(ix) == DSpend(spend) && spend.vault == context.vault
    ensures DescribeInstructions([ix], context)
        == SpendOf(spend.(opensTokenAccount := false, route := RouteOf(spend, context)))
  {
    var d := DecodeEach([ix]);
    assert |d| == 1 && d[0] == DSpend(spend);
    assert DUnknown !in d;
    AssembleOne(d, spend, context);
  }

  lemma AssembleOpened(d: seq<Decoded>, spend: SpendDescription, owner: Key, context: Context)
    requires |d| == 2 && d[1] == DSpend(spend) && spend.vault == context.vault
    requires spend.mint.Token? && spend.destinationTokenAccount.Some?
    requires d[0] == DOpen(spend.destinationTokenAccount.value, owner, spend.mint.key)
    requires spend.destination.Some? ==> spend.destination.value == owner
    ensures Assemble(d, context)
         == SpendOf(spend.(destination := Some(owner), opensTokenAccount := true, route := RouteOf(spend, context)))
  {
    var e := d[1..];
    assert e == [d[1]] && e[1..] == [];
    assert Spends(e) == [spend];
    assert Proposes(e) == [];
    assert Proposals(e) == [];
    assert Votings(e) == [];
    assert Transfers(e) == [];
    assert Opens(e) == [];
    assert Spends(d) == [spend];
    assert Proposes(d) == [];
    assert Proposals(d) == [];
    assert Votings(d) == [];
    assert Transfers(d) == [];
    assert Opens(d) == [d[0]];
    assert AdoptOpened(spend.destination, spend.destinationTokenAccount, spend.mint, Opens(d))
        == Some((Some(owner), true));
  }

  lemma SpendWithOpening(open: Instruction, ix: Instruction, spend: SpendDescription, owner: Key, context: Context)
    requires DecodeInstruction(ix) == DSpend(spend) && spend.vault == context.vault
    requires spend.mint.Token? && spend.destinationTokenAccount.Some?
    requires DecodeInstruction(open) == DOpen(spend.destinationTokenAccount.value, owner, spend.mint.key)
    requires spend.destination.Some? ==> spend.destination.value == owner
    ensures DescribeInstructions([open, ix], context)
         == SpendOf(spend.(destination := Some(owner), opensTokenAccount := true, route := RouteOf(spend, context)))
  {
    var d := DecodeEach([open, ix]);
    assert |d| == 2 && d[1] == DSpend(spend) && d[0].DOpen?;
    assert DUnknown !in d;
    AssembleOpened(d, spend, owner, context);
  }

  /**
   * Alone in its message, beside any compute-budget instructions, a built Spend passes
   * for what it pays and for nothing else.
   */
  lemma BuiltSpendAccepted(
    addresses: Addresses, request: S.SpendRequest, route: S.Route, signers: seq<Key>, decimals: nat,
    tokenProgram: Option<Key>, allowed: seq<Key>, ixs: seq<Instruction>, e: ExpectedSpend)
    requires S.Buildable(request, route, signers, decimals, tokenProgram, allowed)
    requires request.mint == NATIVE_MINT || (tokenProgram.Some? && IsTokenProgram(tokenProgram.value))
    requires e.vault == addresses.vault
    requires WithoutComputeBudget(ixs)
          == [S.BuildSpend(addresses, request, route, signers, decimals, tokenProgram, allowed).value]
    ensures SpendMatches(DescribeInstructions(ixs, PlainContext(e.vault)), e) <==>
            && e.mint == MintOf(request.mint) && e.amount == request.amount
            && e.destination == (if route.LimitRoute? || request.mint == NATIVE_MINT then request.destination
                                 else S.DestinationTokenAccount(request, tokenProgram.value))
  {
    var ix := S.BuildSpend(addresses, request, route, signers, decimals, tokenProgram, allowed).value;
    var asked := Asked(addresses, request, route, signers, decimals, tokenProgram);
    BuiltSpendReadsBack(addresses, request, route, signers, decimals, tokenProgram, allowed);
    assert [ix][1..] == [];
    assert WithoutComputeBudget([ix]) == [ix];
    ComputeBudgetInvisible(ixs, [ix], PlainContext(e.vault));
    OneSpendAssembled(ix, asked, PlainContext(e.vault));
  }

  /** With the recipient's token account opened beside it, a token Spend passes for its owner on either route. */
  lemma BuiltSpendWithOpeningAccepted(
    addresses: Addresses, request: S.SpendRequest, route: S.Route, signers: seq<Key>, decimals: nat,
    tokenProgram: Option<Key>, allowed: seq<Key>, open: Instruction, ixs: seq<Instruction>, e: ExpectedSpend)
    requires S.Buildable(request, route, signers, decimals, tokenProgram, allowed)
    requires request.mint != NATIVE_MINT && tokenProgram.Some? && IsTokenProgram(tokenProgram.value)
    requires e.vault == addresses.vault
    requires DecodeInstruction(open)
          == DOpen(S.DestinationTokenAccount(request, tokenProgram.value), request.destination, request.mint)
    requires WithoutComputeBudget(ixs)
          == [open, S.BuildSpend(addresses, request, route, signers, decimals, tokenProgram, allowed).value]
    ensures SpendMatches(DescribeInstructions(ixs, PlainContext(e.vault)), e) <==>
            e.mint == Token(request.mint) && e.amount == request.amount && e.destination == request.destination
  {
    var ix := S.BuildSpend(addresses, request, route, signers, decimals, tokenProgram, allowed).value;
    var asked := Asked(addresses, request, route, signers, decimals, tokenProgram);
    BuiltSpendReadsBack(addresses, request, route, signers, decimals, tokenProgram, allowed);
    AskedOfToken(addresses, request, route, signers, decimals, tokenProgram);
    OpeningReads(open, ix, asked, request.destination, ixs, PlainContext(e.vault));
  }

  lemma AskedOfToken(
    addresses: Addresses, request: S.SpendRequest, route: S.Route, signers: seq<Key>, decimals: nat,
    tokenProgram: Option<Key>)
    requires request.mint != NATIVE_MINT && tokenProgram.Some?
    ensures var asked := Asked(addresses, request, route, signers, decimals, tokenProgram);
            && asked.vault == addresses.vault && asked.mint == Token(request.mint) && asked.amount == request.amount
            && asked.destinationTokenAccount == Some(S.DestinationTokenAccount(request, tokenProgram.value))
            && (asked.destination.Some? ==> asked.destination.value == request.destination)
  {
  }

  lemma OpeningReads(open: Instruction, ix: Instruction, spend: SpendDescription, owner: Key, ixs: seq<Instruction>,
                     context: Context)
    requires DecodeInstruction(ix) == DSpend(spend) && spend.vault == context.vault
    requires spend.mint.Token? && spend.destinationTokenAccount.Some?
    requires DecodeInstruction(open) == DOpen(spend.destinationTokenAccount.value, owner, spend.mint.key)
    requires spend.destination.Some? ==> spend.destination.value == owner
    requires WithoutComputeBudget(ixs) == [open, ix]
    ensures DescribeInstructions(ixs, context)
         == SpendOf(spend.(destination := Some(owner), opensTokenAccount := true, route := RouteOf(spend, context)))
  {
    assert [open, ix][1..] == [ix];
    assert [ix][1..] == [];
    assert WithoutComputeBudget([ix]) == [ix];
    assert WithoutComputeBudget([open, ix]) == [open, ix];
    ComputeBudgetInvisible(ixs, [open, ix], context);
    SpendWithOpening(open, ix, spend, owner, context);
  }

  // ---- soundness ----

  /** Money leaving an account on an authority's say. */
  datatype Movement = Movement(source: Key, authority: Key, mint: Mint, amount: nat, to: Key)

  /** What executing one instruction moves, wrapped instructions included. */
  function Moves(ix: Instruction): seq<Movement>
    decreases ix.data.Args?, 2
  {
    match ix.data
    case Bytes(data) =>
      if ix.programId == SystemProgram && |data| == 12 && ReadLittleEndian(data[..4]) == 2 && |ix.accounts| >= 2 then
        [Movement(ix.accounts[0], ix.accounts[0], Sol, ReadLittleEndian(data[4..]), ix.accounts[1])]
      else if IsTokenProgram(ix.programId) && |data| == 10 && data[0] == 12 && |ix.accounts| >= 4 then
        [Movement(ix.accounts[0], ix.accounts[3], Token(ix.accounts[1]), ReadLittleEndian(data[1..9]), ix.accounts[2])]
      else []
    case Args(ExecuteTransactionSyncV2(_, numSigners, UnderPolicy(payload))) =>
      if ix.programId != SquadsProgram || |ix.accounts| < 2 + numSigners then []
      else PolicyMoves(payload, ix.accounts[2 + numSigners..])
    case _ => []
  }

  function PolicyMoves(payload: PolicyPayload, rest: seq<Key>): seq<Movement>
    decreases true, 1
  {
    match payload
    case SpendUnderLimit(amount, _, _) =>
      if |rest| == 3 then [Movement(rest[0], rest[0], Sol, amount, rest[1])]
      else if |rest| == 5 then [Movement(rest[1], rest[0], Token(rest[3]), amount, rest[2])]
      else []
    case Interaction(_, SyncTransaction(_, bytes)) =>
      if ParseInner(bytes, rest).None? then [] else InnerMoves(ParseInner(bytes, rest).value)
    case _ => []
  }

  function InnerMoves(inner: seq<Inner>): seq<Movement>
    decreases true, 0, |inner|
  {
    if inner == [] then []
    else Moves(Instruction(inner[0].programId, inner[0].accounts, Bytes(inner[0].data))) + InnerMoves(inner[1..])
  }

  function AllMoves(ixs: seq<Instruction>): seq<Movement> {
    if ixs == [] then [] else Moves(ixs[0]) + AllMoves(ixs[1..])
  }

  /** Where a described payment lands: the token account it names, or the wallet. */
  function LandsIn(spend: SpendDescription): Option<Key> {
    if spend.destinationTokenAccount.Some? then spend.destinationTokenAccount else spend.destination
  }

  lemma TransferMoves(ix: Instruction)
    requires ix.data.Bytes? && DecodeInstruction(ix).DTransfer?
    ensures LandsOf(DecodeInstruction(ix).transfer).Some?
    ensures var t := DecodeInstruction(ix).transfer;
            |ix.accounts| > 0 && Moves(ix) == [Movement(ix.accounts[0], t.source, t.mint, t.amount, LandsOf(t).value)]
            && (t.mint == Sol ==> ix.accounts[0] == t.source)
  {
  }

  function LandsOf(t: TransferDescription): Option<Key> {
    if t.destinationTokenAccount.Some? then t.destinationTokenAccount else t.destination
  }

  /** Only a synchronous Squads instruction under a policy reads as a Spend. */
  lemma SpendIsSync(ix: Instruction)
    requires DecodeInstruction(ix).DSpend?
    ensures ix.programId == SquadsProgram && ix.data.Args? && ix.data.args.ExecuteTransactionSyncV2?
    ensures ix.data.args.payload.UnderPolicy? && |ix.accounts| >= 2 + ix.data.args.numSigners
    ensures DecodeInstruction(ix)
         == DecodePolicySpend(ix.accounts[0], ix.accounts[2..][..ix.data.args.numSigners],
                              ix.accounts[2 + ix.data.args.numSigners..], ix.data.args.payload.payload)
  {
    var args := ix.data.args;
    assert DecodeInstruction(ix) == DecodeSquads(ix.accounts, ix.data);
    assert args.ExecuteTransactionSyncV2?;
    assert DecodeSquads(ix.accounts, ix.data)
        == DecodeSyncSpend(ix.accounts, args.accountIndex, args.numSigners, args.payload);
    if |ix.accounts| < 2 {
      NoAccountsNoSpend(ix.accounts[0], [], args.payload.payload);
    } else {
      assert ix.accounts[2..][args.numSigners..] == ix.accounts[2 + args.numSigners..];
    }
  }

  lemma NothingInEmptyTable(list: seq<Compiled>)
    ensures list == [] || exists c :: c in list && !InTable(c, 0)
  {
    if list != [] {
      assert list[0] in list && !InTable(list[0], 0);
    }
  }

  lemma NoAccountsNoSpend(consensus: Key, signers: seq<Key>, payload: PolicyPayload)
    ensures !DecodePolicySpend(consensus, signers, [], payload).DSpend?
  {
    if payload.Interaction? && payload.transaction.SyncTransaction? {
      var bytes := payload.transaction.instructions;
      if Parse(bytes, 0).Some? {
        ParsedInTable(bytes, 0);
        NothingInEmptyTable(Parse(bytes, 0).value);
      }
    }
  }

  /** The account is the owner's own in that mint: the wallet itself for SOL, a token account of theirs otherwise. */
  predicate OwnAccount(owner: Key, mint: Mint, account: Key) {
    match mint
    case Sol => account == owner
    case Token(key) => account.TokenAccount? && account.owner == owner && account.mint == key
  }

  /** The account a wrapped transfer names first, which is the one it debits. */
  function WrappedSource(payload: PolicyPayload, rest: seq<Key>): Option<Key> {
    if !payload.Interaction? || !payload.transaction.SyncTransaction? then None
    else
      match ParseInner(payload.transaction.instructions, rest)
      case None => None
      case Some(inner) => if |inner| != 1 || inner[0].accounts == [] then None else Some(inner[0].accounts[0])
  }

  /**
   * One movement, on the vault's say; a limit Spend debits the vault's own account, a
   * wrapped one whatever it names.
   */
  ghost predicate MovesAs(moves: seq<Movement>, spend: SpendDescription, source: Option<Key>) {
    && LandsIn(spend).Some?
    && |moves| == 1
    && moves == [Movement(moves[0].source, spend.vault, spend.mint, spend.amount, LandsIn(spend).value)]
    && (if source.Some? then moves[0].source == source.value else OwnAccount(spend.vault, spend.mint, moves[0].source))
  }

  lemma PolicySpendMoves(consensus: Key, signers: seq<Key>, rest: seq<Key>, payload: PolicyPayload)
    requires DecodePolicySpend(consensus, signers, rest, payload).DSpend?
    ensures MovesAs(PolicyMoves(payload, rest), DecodePolicySpend(consensus, signers, rest, payload).spend,
                    WrappedSource(payload, rest))
  {
    if payload.Interaction? {
      var inner := ParseInner(payload.transaction.instructions, rest).value;
      var wrapped := Instruction(inner[0].programId, inner[0].accounts, Bytes(inner[0].data));
      TransferMoves(wrapped);
      assert inner[1..] == [];
      assert InnerMoves(inner[1..]) == [];
      assert InnerMoves(inner) == Moves(wrapped);
    }
  }

  function SourceNamedBy(ix: Instruction): Option<Key> {
    match ix.data
    case Args(ExecuteTransactionSyncV2(_, numSigners, UnderPolicy(payload))) =>
      if |ix.accounts| < 2 + numSigners then None else WrappedSource(payload, ix.accounts[2 + numSigners..])
    case _ => None
  }

  lemma SpendMoves(ix: Instruction)
    requires DecodeInstruction(ix).DSpend?
    ensures MovesAs(Moves(ix), DecodeInstruction(ix).spend, SourceNamedBy(ix))
  {
    SpendIsSync(ix);
    var n := ix.data.args.numSigners;
    PolicySpendMoves(ix.accounts[0], ix.accounts[2..][..n], ix.accounts[2 + n..], ix.data.args.payload.payload);
    assert Moves(ix) == PolicyMoves(ix.data.args.payload.payload, ix.accounts[2 + n..]);
  }

  lemma NothingMoves(ix: Instruction)
    requires DecodeInstruction(ix).DOpen? || DecodeInstruction(ix).DComputeBudget?
    ensures Moves(ix) == []
  {
    SquadsNeverHarmless(ix);
  }

  lemma SquadsNeverHarmless(ix: Instruction)
    requires DecodeInstruction(ix).DOpen? || DecodeInstruction(ix).DComputeBudget?
    ensures ix.data.Bytes? && (ix.programId == AssociatedTokenProgram || ix.programId == ComputeBudgetProgram)
  {
    if ix.data.Args? && ix.programId == SquadsProgram {
      SquadsKinds(ix.accounts, ix.data.args);
    }
  }

  lemma SquadsKinds(accounts: seq<Key>, args: SquadsArgs)
    ensures var d := DecodeSquads(accounts, Args(args)); !d.DOpen? && !d.DComputeBudget?
  {
    if args.ExecuteTransactionSyncV2? {
      assert DecodeSquads(accounts, Args(args))
          == DecodeSyncSpend(accounts, args.accountIndex, args.numSigners, args.payload);
      var remaining := if |accounts| < 2 then [] else accounts[2..];
      if |accounts| >= 1 && args.payload.UnderPolicy? && |remaining| >= args.numSigners {
        SpendOrUnknown(accounts[0], remaining[..args.numSigners], remaining[args.numSigners..], args.payload.payload);
      }
    }
  }

  lemma SpendOrUnknown(consensus: Key, signers: seq<Key>, rest: seq<Key>, payload: PolicyPayload)
    ensures var d := DecodePolicySpend(consensus, signers, rest, payload); d.DSpend? || d.DUnknown?
  {
  }

  predicate Harmless(d: Decoded) {
    d.DOpen? || d.DComputeBudget?
  }

  /** The instruction that pays, when the message has one. */
  function Paying(ixs: seq<Instruction>): Option<Instruction> {
    if ixs == [] then None
    else if DecodeInstruction(ixs[0]).DSpend? then Some(ixs[0])
    else Paying(ixs[1..])
  }

  lemma {:induction false} OneSpendMoves(ixs: seq<Instruction>)
    requires forall d :: d in DecodeEach(ixs) ==> d.DSpend? || Harmless(d)
    requires |Spends(DecodeEach(ixs))| <= 1
    ensures var spends := Spends(DecodeEach(ixs));
            if spends == [] then AllMoves(ixs) == []
            else Paying(ixs).Some? && MovesAs(AllMoves(ixs), spends[0], SourceNamedBy(Paying(ixs).value))
  {
    if ixs != [] {
      var d := DecodeEach(ixs);
      assert d[0] in d;
      assert d[1..] == DecodeEach(ixs[1..]);
      forall x | x in d[1..] ensures x in d {}
      OneSpendMoves(ixs[1..]);
      if d[0].DSpend? {
        SpendMoves(ixs[0]);
        assert Moves(ixs[0]) + [] == Moves(ixs[0]);
      } else {
        NothingMoves(ixs[0]);
      }
    }
  }

  lemma {:induction false} OnlySorted(d: seq<Decoded>)
    requires Transfers(d) == [] && Proposes(d) == [] && Proposals(d) == [] && Votings(d) == [] && DUnknown !in d
    ensures forall x :: x in d ==> x.DSpend? || Harmless(x)
  {
    if d != [] {
      assert forall x :: x in d <==> x == d[0] || x in d[1..];
      OnlySorted(d[1..]);
    }
  }

  /**
   * A payment the device accepts is one instruction that moves money, at most one
   * opening of the very account it pays, and compute-budget instructions; what
   * moves is the amount expected, in the mint expected, on the vault's say.
   */
  lemma AcceptedSpendMovesExactly(ixs: seq<Instruction>, e: ExpectedSpend)
    requires SpendMatches(DescribeInstructions(ixs, PlainContext(e.vault)), e)
    ensures var d := DecodeEach(ixs);
            var said := DescribeInstructions(ixs, PlainContext(e.vault)).spend;
            && (forall x :: x in d ==> x.DSpend? || Harmless(x))
            && |Spends(d)| == 1 && |Opens(d)| <= 1
            && (Opens(d) != [] ==> Some(Opens(d)[0].ata) == said.destinationTokenAccount
                                   && Opens(d)[0].owner == e.destination && Token(Opens(d)[0].mint) == e.mint)
            && LandsIn(said).Some? && |AllMoves(ixs)| == 1
            && AllMoves(ixs) == [Movement(AllMoves(ixs)[0].source, e.vault, e.mint, e.amount, LandsIn(said).value)]
  {
    var d := DecodeEach(ixs);
    OnlySorted(d);
    OneSpendMoves(ixs);
  }

  /**
   * The account debited is the vault's own exactly when a wrapped transfer, if that is
   * what pays, names the vault's own.
   */
  lemma DebitsTheVaultIff(ixs: seq<Instruction>, e: ExpectedSpend)
    requires SpendMatches(DescribeInstructions(ixs, PlainContext(e.vault)), e)
    ensures Paying(ixs).Some? && |AllMoves(ixs)| == 1
    ensures var named := SourceNamedBy(Paying(ixs).value);
            OwnAccount(e.vault, e.mint, AllMoves(ixs)[0].source)
            <==> (named.Some? ==> OwnAccount(e.vault, e.mint, named.value))
  {
    OnlySorted(DecodeEach(ixs));
    OneSpendMoves(ixs);
  }

  /** The account a token Spend under a limit credits, an argument of its own beside the destination it shows. */
  function CreditNamedBy(ix: Instruction): Option<Key> {
    match ix.data
    case Args(ExecuteTransactionSyncV2(_, numSigners, UnderPolicy(SpendUnderLimit(_, _, _)))) =>
      if |ix.accounts| == 2 + numSigners + 5 then Some(ix.accounts[2 + numSigners + 2]) else None
    case _ => None
  }

  /** Somewhere the party holds the mint: the account named as the party, or one of their own. */
  predicate Reaches(party: Key, mint: Mint, account: Key) {
    account == party || OwnAccount(party, mint, account)
  }

  /**
   * The account credited is the destination's exactly when it was opened beside the
   * Spend, or the Spend is not a token Spend under a limit, or it names such an
   * account.
   */
  lemma CreditsTheDestinationIff(ixs: seq<Instruction>, e: ExpectedSpend)
    requires SpendMatches(DescribeInstructions(ixs, PlainContext(e.vault)), e)
    ensures Paying(ixs).Some? && |AllMoves(ixs)| == 1
    ensures var named := CreditNamedBy(Paying(ixs).value);
            Reaches(e.destination, e.mint, AllMoves(ixs)[0].to)
            <==> (Opens(DecodeEach(ixs)) != [] || named.None? || Reaches(e.destination, e.mint, named.value))
  {
    var d := DecodeEach(ixs);
    OnlySorted(d);
    OneSpendMoves(ixs);
    OpeningsAreOwn(ixs);
    PayingDecodes(ixs);
    CreditIsNamed(Paying(ixs).value);
  }

  lemma {:induction false} PayingDecodes(ixs: seq<Instruction>)
    requires |Spends(DecodeEach(ixs))| == 1
    ensures Paying(ixs).Some? && DecodeInstruction(Paying(ixs).value) == DSpend(Spends(DecodeEach(ixs))[0])
  {
    var d := DecodeEach(ixs);
    assert d[1..] == DecodeEach(ixs[1..]);
    if !d[0].DSpend? { PayingDecodes(ixs[1..]); }
  }

  lemma CreditIsNamed(ix: Instruction)
    requires DecodeInstruction(ix).DSpend?
    ensures var s, named := DecodeInstruction(ix).spend, CreditNamedBy(ix);
            && (named.Some? ==> s.destinationTokenAccount == named)
            && (named.None? ==> s.destination.None? || (s.mint == Sol && s.destinationTokenAccount.None?))
  {
    SpendIsSync(ix);
    if ix.data.args.payload.payload.Interaction? {
      var n := ix.data.args.numSigners;
      WrappedTransferNames(ix.accounts[0], ix.accounts[2..][..n], ix.accounts[2 + n..], ix.data.args.payload.payload);
    }
  }

  /** A token transfer names the account it credits and never whose it is; a SOL transfer names the wallet. */
  lemma WrappedTransferNames(consensus: Key, signers: seq<Key>, rest: seq<Key>, payload: PolicyPayload)
    requires payload.Interaction? && DecodePolicySpend(consensus, signers, rest, payload).DSpend?
    ensures var s := DecodePolicySpend(consensus, signers, rest, payload).spend;
            s.destination.None? || (s.mint == Sol && s.destinationTokenAccount.None?)
  {
    var inner := ParseInner(payload.transaction.instructions, rest).value;
    var wrapped := Instruction(inner[0].programId, inner[0].accounts, Bytes(inner[0].data));
    TransferMoves(wrapped);
  }

  lemma OpenIsOwn(ix: Instruction)
    requires DecodeInstruction(ix).DOpen?
    ensures var o := DecodeInstruction(ix); OwnAccount(o.owner, Token(o.mint), o.ata)
  {
    SquadsNeverHarmless(ix);
  }

  lemma {:induction false} OpeningsAreOwn(ixs: seq<Instruction>)
    ensures forall o :: o in Opens(DecodeEach(ixs)) ==> OwnAccount(o.owner, Token(o.mint), o.ata)
  {
    if ixs != [] {
      var d := DecodeEach(ixs);
      assert d[1..] == DecodeEach(ixs[1..]);
      OpeningsAreOwn(ixs[1..]);
      if d[0].DOpen? { OpenIsOwn(ixs[0]); }
    }
  }

  // ---- what the check leaves to the program ----

  /** Whatever account a wrapped token transfer debits, its message is accepted on the vault's say. */
  lemma AnySourceIsAccepted(
    vault: Key, policy: Key, signers: seq<Key>, source: Key, mint: Key, to: Key, amount: nat, e: ExpectedSpend)
    requires amount < U64_LIMIT && e == ExpectedSpend(vault, to, Token(mint), amount)
    ensures exists ix ::
              SpendMatches(DescribeInstructions([ix], PlainContext(vault)), e) && SourceNamedBy(ix) == Some(source)
  {
    var t := DebitOf(source, mint, to, vault, amount);
    var payload := Interaction([0], SyncTransaction(PRIMARY_ACCOUNT_INDEX, S.EncodeTransfer(t)));
    var ix := S.PolicySync(policy, |signers|, payload, signers + S.AccountTable(t));
    ReadDebit(source, mint, to, vault, amount);
    ReadWrapped(t, policy, signers, TransferDescription(vault, None, Some(to), Token(mint), amount, false));
    ReadPolicySync(policy, signers, payload, S.AccountTable(t));
    OneSpendAssembled(ix, DecodeInstruction(ix).spend, PlainContext(vault));
    DebitNames(policy, signers, t, source);
  }

  function DebitOf(source: Key, mint: Key, to: Key, vault: Key, amount: nat): S.Transfer {
    S.Transfer(TokenProgram,
               [ S.Meta(source, false, true), S.Meta(mint, false, false), S.Meta(to, false, true),
                 S.Meta(vault, true, true) ],
               S.TransferCheckedBytes(amount, 0))
  }

  lemma ReadDebit(source: Key, mint: Key, to: Key, vault: Key, amount: nat)
    requires amount < U64_LIMIT
    ensures var t := DebitOf(source, mint, to, vault, amount);
            && S.MetaKeys(t.metas) == [source, mint, to, vault]
            && DecodeInstruction(Instruction(t.programId, S.MetaKeys(t.metas), Bytes(t.data)))
               == DTransfer(TransferDescription(vault, None, Some(to), Token(mint), amount, false))
  {
    assert S.MetaKeys(DebitOf(source, mint, to, vault, amount).metas) == [source, mint, to, vault];
    ReadTransferChecked(source, mint, to, vault, amount, 0);
  }

  lemma DebitNames(policy: Key, signers: seq<Key>, t: S.Transfer, source: Key)
    requires |t.metas| <= 4 && |t.data| < U16_LIMIT && S.MetaKeys(t.metas) != [] && S.MetaKeys(t.metas)[0] == source
    ensures var payload := Interaction([0], SyncTransaction(PRIMARY_ACCOUNT_INDEX, S.EncodeTransfer(t)));
            SourceNamedBy(S.PolicySync(policy, |signers|, payload, signers + S.AccountTable(t))) == Some(source)
  {
    S.ParseTransfer(t);
    S.AfterSigners(policy, signers, S.AccountTable(t));
  }

  /**
   * Whatever account an unopened token Spend under a limit credits, its message is
   * accepted for the destination it shows.
   */
  lemma AnyAccountIsCredited(
    vault: Key, policy: Key, signer: Key, destination: Key, to: Key, mint: Key, amount: nat, e: ExpectedSpend)
    requires e == ExpectedSpend(vault, destination, Token(mint), amount)
    ensures exists ix ::
              SpendMatches(DescribeInstructions([ix], PlainContext(vault)), e) && CreditNamedBy(ix) == Some(to)
  {
    var ix := CreditOf(vault, policy, signer, destination, to, mint, amount);
    ReadCredit(vault, policy, signer, destination, to, mint, amount);
    OneSpendAssembled(ix, DecodeInstruction(ix).spend, PlainContext(vault));
    assert Some(to) == CreditNamedBy(ix);
  }

  function CreditOf(vault: Key, policy: Key, signer: Key, destination: Key, to: Key, mint: Key,
                    amount: nat): Instruction {
    S.PolicySync(policy, 1, SpendUnderLimit(amount, destination, 6),
                 [signer] + [vault, TokenAccount(vault, mint, TokenProgram), to, mint, TokenProgram])
  }

  lemma ReadCredit(vault: Key, policy: Key, signer: Key, destination: Key, to: Key, mint: Key, amount: nat)
    ensures DecodeInstruction(CreditOf(vault, policy, signer, destination, to, mint, amount))
         == DSpend(SpendDescription(vault, policy, SpendingLimitRoute, [signer], Some(destination), Some(to),
                                    Token(mint),
                                    amount, Some(6), false))
  {
    ReadPolicySync(policy, [signer], SpendUnderLimit(amount, destination, 6),
                   [vault, TokenAccount(vault, mint, TokenProgram), to, mint, TokenProgram]);
  }
}
