/** Choosing how a Spend is signed, and building the one instruction that makes it. */
module Spend {
  import opened Wrappers
  import opened Keys
  import opened Squads
  import opened Wire
  import B = Builders

  datatype SpendRequest = SpendRequest(
    mint: Key, amount: nat, destination: Key, destinationTokenAccount: Option<Key>)

  datatype Reason =
    | NoSpendingLimit
    | DifferentMint
    | ExceedsPerUse
    | ExceedsRemaining
    | DestinationNotAllowed

  datatype Route =
    | LimitRoute(policy: Key)
    | TwoSignature(reason: Reason, policy: Key)

  // ---- the route ----

  /** What one limit in the request's mint has against it, if anything. */
  function WhyNot(limit: B.SpendingLimit, request: SpendRequest): Option<Reason> {
    if request.amount > limit.maxPerUse then Some(ExceedsPerUse)
    else if request.amount > limit.remainingInPeriod then Some(ExceedsRemaining)
    else if limit.destinations != [] && request.destination !in limit.destinations then Some(DestinationNotAllowed)
    else None
  }

  predicate Admits(limit: B.SpendingLimit, request: SpendRequest) {
    && limit.mint == request.mint
    && request.amount <= limit.maxPerUse
    && request.amount <= limit.remainingInPeriod
    && (limit.destinations == [] || request.destination in limit.destinations)
  }

  predicate AnyAdmits(limits: seq<B.SpendingLimit>, request: SpendRequest) {
    exists i :: 0 <= i < |limits| && Admits(limits[i], request)
  }

  predicate FirstAdmitting(limits: seq<B.SpendingLimit>, request: SpendRequest, i: nat) {
    && i < |limits|
    && Admits(limits[i], request)
    && forall j :: 0 <= j < i ==> !Admits(limits[j], request)
  }

  /** The last of the first `bound` limits that is in the mint. */
  predicate LastInMint(limits: seq<B.SpendingLimit>, mint: Key, bound: nat, i: nat) {
    && i < bound <= |limits|
    && limits[i].mint == mint
    && forall j :: i < j < bound ==> limits[j].mint != mint
  }

  /** One signature under the first limit that admits the Spend; otherwise two, saying why. */
  ghost predicate IsRoute(r: Route, request: SpendRequest, limits: seq<B.SpendingLimit>, aboveLimit: Key) {
    if AnyAdmits(limits, request) then
      exists i: nat :: FirstAdmitting(limits, request, i) && r == LimitRoute(limits[i].policy)
    else
      && r.TwoSignature? && r.policy == aboveLimit
      && (limits == [] ==> r.reason == NoSpendingLimit)
      && (limits != [] && (forall i :: 0 <= i < |limits| ==> limits[i].mint != request.mint) ==>
            r.reason == DifferentMint)
      && (forall i: nat :: LastInMint(limits, request.mint, |limits|, i) ==>
            Some(r.reason) == WhyNot(limits[i], request))
  }

  method ResolveSpendRoute(request: SpendRequest, limits: seq<B.SpendingLimit>, aboveLimit: Key) returns (r: Route)
    ensures IsRoute(r, request, limits, aboveLimit)
  {
    if |limits| == 0 {
      return TwoSignature(NoSpendingLimit, aboveLimit);
    }
    var closest := DifferentMint;
    for i := 0 to |limits|
      invariant forall j :: 0 <= j < i ==> !Admits(limits[j], request)
      invariant (forall j :: 0 <= j < i ==> limits[j].mint != request.mint) ==> closest == DifferentMint
      invariant forall j: nat :: LastInMint(limits, request.mint, i, j) ==> Some(closest) == WhyNot(limits[j], request)
    {
      assert forall j: nat :: LastInMint(limits, request.mint, i + 1, j) ==>
                                j == i || LastInMint(limits, request.mint, i, j);
      var limit := limits[i];
      if limit.mint != request.mint { continue; }
      if request.amount > limit.maxPerUse { closest := ExceedsPerUse; continue; }
      if request.amount > limit.remainingInPeriod { closest := ExceedsRemaining; continue; }
      if |limit.destinations| > 0 && request.destination !in limit.destinations {
        closest := DestinationNotAllowed;
        continue;
      }
      assert FirstAdmitting(limits, request, i);
      return LimitRoute(limit.policy);
    }
    r := TwoSignature(closest, aboveLimit);
  }

  lemma RouteIsUnique(r: Route, q: Route, request: SpendRequest, limits: seq<B.SpendingLimit>, aboveLimit: Key)
    requires IsRoute(r, request, limits, aboveLimit) && IsRoute(q, request, limits, aboveLimit)
    ensures r == q
  {
    if AnyAdmits(limits, request) {
      var i: nat :| FirstAdmitting(limits, request, i) && r == LimitRoute(limits[i].policy);
      var j: nat :| FirstAdmitting(limits, request, j) && q == LimitRoute(limits[j].policy);
      assert !(i < j) && !(j < i);
    } else if exists i :: 0 <= i < |limits| && limits[i].mint == request.mint {
      var i := LastIndex(limits, request.mint);
    }
  }

  lemma {:induction false} LastIndex(limits: seq<B.SpendingLimit>, mint: Key) returns (i: nat)
    requires exists j :: 0 <= j < |limits| && limits[j].mint == mint
    ensures LastInMint(limits, mint, |limits|, i)
  {
    i := |limits| - 1;
    while limits[i].mint != mint
      invariant i < |limits|
      invariant forall k :: i < k < |limits| ==> limits[k].mint != mint
      decreases i
    {
      i := i - 1;
    }
  }

  /** A smaller amount to the same place never needs a signature more. */
  lemma OneSignatureDownwardClosed(r: Route, q: Route, request: SpendRequest, less: nat,
                                   limits: seq<B.SpendingLimit>, aboveLimit: Key)
    requires less <= request.amount
    requires IsRoute(r, request, limits, aboveLimit) && IsRoute(q, request.(amount := less), limits, aboveLimit)
    requires r.LimitRoute?
    ensures q.LimitRoute?
  {
    var i :| 0 <= i < |limits| && Admits(limits[i], request);
    assert Admits(limits[i], request.(amount := less));
  }

  /** The reason given says what it says: no limit at all, or none in this mint. */
  lemma ReasonsMean(r: Route, request: SpendRequest, limits: seq<B.SpendingLimit>, aboveLimit: Key)
    requires IsRoute(r, request, limits, aboveLimit)
    ensures r.LimitRoute? <==> AnyAdmits(limits, request)
    ensures r.TwoSignature? && r.reason == NoSpendingLimit <==> limits == []
    ensures r.TwoSignature? && r.reason == DifferentMint <==>
            limits != [] && forall i :: 0 <= i < |limits| ==> limits[i].mint != request.mint
  {
    if exists j :: 0 <= j < |limits| && limits[j].mint == request.mint {
      var i := LastIndex(limits, request.mint);
    }
  }

  /** The other three reasons are the first thing the last limit in the mint has against the Spend. */
  lemma LastLimitSays(r: Route, request: SpendRequest, limits: seq<B.SpendingLimit>, aboveLimit: Key, i: nat)
    requires IsRoute(r, request, limits, aboveLimit) && r.TwoSignature?
    requires i < |limits| && limits[i].mint == request.mint
    requires forall j :: i < j < |limits| ==> limits[j].mint != request.mint
    ensures r.policy == aboveLimit
    ensures r.reason == ExceedsPerUse <==> request.amount > limits[i].maxPerUse
    ensures r.reason == ExceedsRemaining <==> limits[i].remainingInPeriod < request.amount <= limits[i].maxPerUse
    ensures r.reason == DestinationNotAllowed <==>
      && request.amount <= limits[i].maxPerUse && request.amount <= limits[i].remainingInPeriod
      && limits[i].destinations != [] && request.destination !in limits[i].destinations
  {
    assert LastInMint(limits, request.mint, |limits|, i);
  }

  // ---- the instruction ----

  datatype SpendError =
    | WrongSignerCount
    | NoTokenProgram
    | AmountTooLarge
    | DecimalsTooLarge
    | NotOnAllowlist

  /** An account as an instruction names it. */
  datatype Meta = Meta(key: Key, signer: bool, writable: bool)

  datatype Transfer = Transfer(programId: Key, metas: seq<Meta>, data: seq<byte>)

  function DestinationTokenAccount(request: SpendRequest, tokenProgram: Key): Key {
    match request.destinationTokenAccount
    case Some(k) => k
    case None => TokenAccount(request.destination, request.mint, tokenProgram)
  }

  const TRANSFER_CHECKED: byte := 12
  const SYSTEM_TRANSFER: nat := 2

  function TransferCheckedBytes(amount: nat, decimals: nat): seq<byte>
    requires decimals < 256
  {
    [TRANSFER_CHECKED] + LittleEndian(amount, 8) + [decimals]
  }

  /** The ten-byte buffer, filled in place. */
  method TransferCheckedData(amount: nat, decimals: nat) returns (data: array<byte>)
    requires amount < U64_LIMIT && decimals < 256
    ensures fresh(data) && data[..] == TransferCheckedBytes(amount, decimals)
    ensures IsTransferChecked(data[..], amount, decimals)
  {
    data := new byte[10](_ => 0);
    data[0] := TRANSFER_CHECKED;
    WriteLittleEndian(data, amount, 1);
    data[9] := decimals;
    TransferCheckedIs(amount, decimals);
  }

  /** The token program's own layout: tag 12, the amount in eight bytes, the decimals it checks in one. */
  predicate IsTransferChecked(data: seq<byte>, amount: nat, decimals: nat) {
    |data| == 10 && data[0] == 12 && ReadLittleEndian(data[1..9]) == amount && data[9] == decimals
  }

  /** The System program's: tag 2 in four bytes, the lamports in eight. */
  predicate IsSystemTransfer(data: seq<byte>, amount: nat) {
    |data| == 12 && ReadLittleEndian(data[..4]) == 2 && ReadLittleEndian(data[4..]) == amount
  }

  lemma TransferCheckedIs(amount: nat, decimals: nat)
    requires amount < U64_LIMIT && decimals < 256
    ensures IsTransferChecked(TransferCheckedBytes(amount, decimals), amount, decimals)
  {
    ReadBack(amount, 8);
    assert TransferCheckedBytes(amount, decimals)[1..9] == LittleEndian(amount, 8);
  }

  lemma SystemTransferIs(amount: nat)
    requires amount < U64_LIMIT
    ensures IsSystemTransfer(SystemTransferBytes(amount), amount)
  {
    ReadBack(SYSTEM_TRANSFER, 4);
    ReadBack(amount, 8);
    assert SystemTransferBytes(amount)[..4] == LittleEndian(SYSTEM_TRANSFER, 4);
    assert SystemTransferBytes(amount)[4..] == LittleEndian(amount, 8);
  }

  method WriteLittleEndian(data: array<byte>, value: nat, offset: nat)
    requires offset + 8 <= data.Length
    modifies data
    ensures data[..] == old(data[..offset]) + LittleEndian(value, 8) + old(data[offset + 8..])
  {
    ghost var before, target := data[..], LittleEndian(value, 8);
    var rest := value;
    for i := 0 to 8
      invariant target[i..] == LittleEndian(rest, 8 - i)
      invariant forall k :: 0 <= k < i ==> data[offset + k] == target[k]
      invariant forall k :: 0 <= k < data.Length && !(offset <= k < offset + i) ==> data[k] == before[k]
    {
      assert target[i] == target[i..][0] && target[i..][1..] == target[i + 1..];
      data[offset + i] := rest % 256;
      rest := rest / 256;
    }
  }

  function SystemTransferBytes(amount: nat): seq<byte> {
    LittleEndian(SYSTEM_TRANSFER, 4) + LittleEndian(amount, 8)
  }

  /** The transfer the above-limit route wraps. */
  function AboveLimitTransfer(
    addresses: Addresses, request: SpendRequest, decimals: nat, tokenProgram: Option<Key>)
    : Result<Transfer, SpendError>
  {
    if request.amount >= U64_LIMIT then Err(AmountTooLarge)
    else if request.mint == NATIVE_MINT then
      Ok(Transfer(
           SystemProgram,
           [Meta(addresses.vault, true, true), Meta(request.destination, false, true)],
           SystemTransferBytes(request.amount)))
    else if tokenProgram.None? then Err(NoTokenProgram)
    else if decimals >= 256 then Err(DecimalsTooLarge)
    else
      var program := tokenProgram.value;
      Ok(Transfer(
           program,
           [ Meta(TokenAccount(addresses.vault, request.mint, program), false, true),
             Meta(request.mint, false, false),
             Meta(DestinationTokenAccount(request, program), false, true),
             Meta(addresses.vault, true, true) ],
           TransferCheckedBytes(request.amount, decimals)))
  }

  // ---- compiling the wrapped transfer ----

  function MetaKeys(metas: seq<Meta>): seq<Key> {
    Map((m: Meta) => m.key, metas)
  }

  function Dedup(keys: seq<Key>): (r: seq<Key>)
    ensures forall k :: k in r <==> k in keys
    ensures |r| <= |keys|
    decreases |keys|
  {
    if keys == [] then []
    else
      var rest := Dedup(keys[..|keys| - 1]);
      var last := keys[|keys| - 1];
      assert keys == keys[..|keys| - 1] + [last];
      if last in rest then rest else rest + [last]
  }

  predicate SignerIn(metas: seq<Meta>, key: Key) {
    exists m :: m in metas && m.key == key && m.signer
  }

  predicate WritableIn(metas: seq<Meta>, key: Key) {
    exists m :: m in metas && m.key == key && m.writable
  }

  function Grouped(keys: seq<Key>, metas: seq<Meta>, signer: bool, writable: bool): (r: seq<Key>)
    ensures forall k :: k in r <==> k in keys && SignerIn(metas, k) == signer && WritableIn(metas, k) == writable
  {
    if keys == [] then []
    else
      var rest := Grouped(keys[1..], metas, signer, writable);
      assert forall k :: k in keys <==> k == keys[0] || k in keys[1..];
      if SignerIn(metas, keys[0]) == signer && WritableIn(metas, keys[0]) == writable then [keys[0]] + rest else rest
  }

  /** The compiled message's account table: each key once, writable signers first and read-only accounts last. */
  function AccountTable(t: Transfer): seq<Key> {
    InOrder(Dedup([t.programId] + MetaKeys(t.metas)), t.metas)
  }

  function InOrder(keys: seq<Key>, metas: seq<Meta>): seq<Key> {
    Grouped(keys, metas, true, true) + Grouped(keys, metas, true, false)
    + Grouped(keys, metas, false, true) + Grouped(keys, metas, false, false)
  }

  lemma TableHolds(t: Transfer)
    ensures forall k :: k in AccountTable(t) <==> k == t.programId || k in MetaKeys(t.metas)
  {
    assert forall k :: k in [t.programId] + MetaKeys(t.metas) <==> k == t.programId || k in MetaKeys(t.metas);
  }

  lemma {:induction false} GroupsCount(keys: seq<Key>, metas: seq<Meta>)
    ensures |Grouped(keys, metas, true, true)| + |Grouped(keys, metas, true, false)|
          + |Grouped(keys, metas, false, true)| + |Grouped(keys, metas, false, false)| == |keys|
  {
    if keys != [] { GroupsCount(keys[1..], metas); }
  }

  lemma TableSize(t: Transfer)
    ensures |AccountTable(t)| <= 1 + |t.metas|
  {
    GroupsCount(Dedup([t.programId] + MetaKeys(t.metas)), t.metas);
  }

  function Position(table: seq<Key>, key: Key): (r: byte)
    requires key in table && |table| <= 256
    ensures r < |table| && table[r] == key
  {
    IndexOf(table, key).value
  }

  function CompileOne(t: Transfer, table: seq<Key>): (c: Compiled)
    requires |table| <= 256 && t.programId in table
    requires forall k :: k in MetaKeys(t.metas) ==> k in table
    ensures InTable(c, |table|) && |c.accountIndices| == |t.metas|
    ensures Resolve(c, table) == Inner(t.programId, MetaKeys(t.metas), t.data)
  {
    var keys := MetaKeys(t.metas);
    var c := Compiled(
               Position(table, t.programId),
               seq(|keys|, i requires 0 <= i < |keys| => assert keys[i] in keys; Position(table, keys[i])),
               t.data);
    assert Lookup(c.accountIndices, table) == keys;
    c
  }

  function ConstraintIndex(programId: Key, allowed: seq<Key>): Result<nat, SpendError> {
    match IndexOf(allowed, programId)
    case None => Err(NotOnAllowlist)
    case Some(i) => Ok(i)
  }

  /** The accounts a spending-limit policy reads after the signers. */
  function SpendAccounts(addresses: Addresses, request: SpendRequest, tokenProgram: Option<Key>)
    : Result<seq<Key>, SpendError>
  {
    if request.mint == NATIVE_MINT then Ok([addresses.vault, request.destination, SystemProgram])
    else if tokenProgram.None? then Err(NoTokenProgram)
    else
      Ok([ addresses.vault,
           TokenAccount(addresses.vault, request.mint, tokenProgram.value),
           DestinationTokenAccount(request, tokenProgram.value),
           request.mint,
           tokenProgram.value ])
  }

  function PolicySync(policy: Key, numSigners: nat, payload: PolicyPayload, accounts: seq<Key>): Instruction {
    Instruction(SquadsProgram, [policy, SquadsProgram] + accounts,
                Args(ExecuteTransactionSyncV2(PRIMARY_ACCOUNT_INDEX, numSigners, UnderPolicy(payload))))
  }

  /** The program an above-limit Spend wraps. */
  function ProgramOf(request: SpendRequest, tokenProgram: Option<Key>): Option<Key> {
    if request.mint == NATIVE_MINT then Some(SystemProgram) else tokenProgram
  }

  /** What a caller can see beforehand: the signers the route asks for, and what its transfer needs. */
  predicate Buildable(request: SpendRequest, route: Route, signers: seq<Key>, decimals: nat, tokenProgram: Option<Key>,
                      allowed: seq<Key>)
  {
    && (request.mint != NATIVE_MINT ==> tokenProgram.Some?)
    && (route.LimitRoute? ==> |signers| == 1)
    && (route.TwoSignature? ==>
          && |signers| >= 2 && request.amount < U64_LIMIT
          && (request.mint != NATIVE_MINT ==> decimals < 256)
          && ProgramOf(request, tokenProgram).value in allowed)
  }

  function BuildSpend(
    addresses: Addresses, request: SpendRequest, route: Route, signers: seq<Key>, decimals: nat,
    tokenProgram: Option<Key>, allowed: seq<Key>): (r: Result<Instruction, SpendError>)
    ensures r.Ok? <==> Buildable(request, route, signers, decimals, tokenProgram, allowed)
  {
    if route.LimitRoute? then
      if |signers| != 1 then Err(WrongSignerCount)
      else
        var accounts :- SpendAccounts(addresses, request, tokenProgram);
        Ok(PolicySync(route.policy, 1, SpendUnderLimit(request.amount, request.destination, decimals),
                      signers + accounts))
    else if |signers| < 2 then Err(WrongSignerCount)
    else
      var transfer :- AboveLimitTransfer(addresses, request, decimals, tokenProgram);
      var index :- ConstraintIndex(transfer.programId, allowed);
      var table := AccountTable(transfer);
      TableSize(transfer);
      Ok(PolicySync(
           route.policy, |signers|,
           Interaction([index], SyncTransaction(PRIMARY_ACCOUNT_INDEX, EncodeTransfer(transfer))),
           signers + table))
  }

  /** The bytes the compiler writes for a single wrapped transfer. */
  function EncodeTransfer(t: Transfer): seq<byte>
    requires |t.metas| <= 4 && |t.data| < U16_LIMIT
  {
    TableSize(t);
    TableHolds(t);
    var table := AccountTable(t);
    Encode([CompileOne(t, table)])
  }

  lemma ParseTransfer(t: Transfer)
    requires |t.metas| <= 4 && |t.data| < U16_LIMIT
    ensures ParseInner(EncodeTransfer(t), AccountTable(t)) == Some([Inner(t.programId, MetaKeys(t.metas), t.data)])
  {
    TableSize(t);
    TableHolds(t);
    var table := AccountTable(t);
    var list := [CompileOne(t, table)];
    ParseIffEncoding(Encode(list), list, |table|);
    assert ResolveAll(list, table) == [Resolve(list[0], table)];
  }

  /** An above-limit Spend, taken apart: the wrapped transfer, its constraint and its accounts. */
  lemma AboveLimitShape(
    addresses: Addresses, request: SpendRequest, route: Route, signers: seq<Key>, decimals: nat,
    tokenProgram: Option<Key>, allowed: seq<Key>)
    requires route.TwoSignature?
    requires Buildable(request, route, signers, decimals, tokenProgram, allowed)
    ensures var transfer := AboveLimitTransfer(addresses, request, decimals, tokenProgram);
            && transfer.Ok? && |transfer.value.metas| <= 4 && |transfer.value.data| < U16_LIMIT
            && ConstraintIndex(transfer.value.programId, allowed).Ok?
            && BuildSpend(addresses, request, route, signers, decimals, tokenProgram, allowed).value
               == PolicySync(
                    route.policy, |signers|,
                    Interaction([ConstraintIndex(transfer.value.programId, allowed).value],
                                SyncTransaction(PRIMARY_ACCOUNT_INDEX, EncodeTransfer(transfer.value))),
                    signers + AccountTable(transfer.value))
  {
  }

  /** The account a token Spend is to credit: the one named, or the party's own. */
  predicate Credits(request: SpendRequest, tokenProgram: Key, account: Key) {
    if request.destinationTokenAccount.Some? then account == request.destinationTokenAccount.value
    else account == TokenAccount(request.destination, request.mint, tokenProgram)
  }

  /** The one transfer an above-limit Spend is to make, in its program's own terms. */
  predicate IsTheTransfer(inner: Inner, addresses: Addresses, request: SpendRequest, decimals: nat,
                          tokenProgram: Option<Key>)
  {
    if request.mint == NATIVE_MINT then
      && inner.programId == SystemProgram && inner.accounts == [addresses.vault, request.destination]
      && IsSystemTransfer(inner.data, request.amount)
    else
      && Some(inner.programId) == tokenProgram && |inner.accounts| == 4
      && inner.accounts[0] == TokenAccount(addresses.vault, request.mint, inner.programId)
      && inner.accounts[1] == request.mint && Credits(request, inner.programId, inner.accounts[2])
      && inner.accounts[3] == addresses.vault
      && IsTransferChecked(inner.data, request.amount, decimals)
  }

  /** A synchronous instruction under a policy, its signers first, wrapping what one instruction parses to. */
  predicate Wraps(ix: Instruction, policy: Key, signers: seq<Key>, inner: Inner) {
    var n := |signers|;
    && ix.programId == SquadsProgram && |ix.accounts| >= 2 + n
    && ix.accounts[..2 + n] == [policy, SquadsProgram] + signers
    && ix.data.Args? && ix.data.args.ExecuteTransactionSyncV2?
    && ix.data.args.accountIndex == 0 && ix.data.args.numSigners == n && ix.data.args.payload.UnderPolicy?
    && var payload := ix.data.args.payload.payload;
    && payload.Interaction? && payload.transaction.SyncTransaction? && payload.transaction.accountIndex == 0
    && ParseInner(payload.transaction.instructions, ix.accounts[2 + n..]) == Some([inner])
  }

  lemma SyncWraps(policy: Key, signers: seq<Key>, index: nat, t: Transfer)
    requires |t.metas| <= 4 && |t.data| < U16_LIMIT
    ensures Wraps(PolicySync(policy, |signers|,
                             Interaction([index], SyncTransaction(PRIMARY_ACCOUNT_INDEX, EncodeTransfer(t))),
                             signers + AccountTable(t)),
                  policy, signers, Inner(t.programId, MetaKeys(t.metas), t.data))
  {
    ParseTransfer(t);
    PolicyWraps(policy, signers, index, EncodeTransfer(t), AccountTable(t),
                Inner(t.programId, MetaKeys(t.metas), t.data));
  }

  lemma PolicyWraps(policy: Key, signers: seq<Key>, index: nat, bytes: seq<byte>, rest: seq<Key>, inner: Inner)
    requires ParseInner(bytes, rest) == Some([inner])
    ensures Wraps(PolicySync(policy, |signers|, Interaction([index], SyncTransaction(PRIMARY_ACCOUNT_INDEX, bytes)),
                             signers + rest),
                  policy, signers, inner)
  {
    AfterSigners(policy, signers, rest);
  }

  /**
   * Taken apart again, a built above-limit Spend is addressed to the route's policy with
   * its signers first, and wraps exactly that transfer, decimals and all.
   */
  lemma BuiltAboveLimitWraps(
    addresses: Addresses, request: SpendRequest, route: Route, signers: seq<Key>, decimals: nat,
    tokenProgram: Option<Key>, allowed: seq<Key>) returns (inner: Inner)
    requires route.TwoSignature?
    requires Buildable(request, route, signers, decimals, tokenProgram, allowed)
    ensures Wraps(BuildSpend(addresses, request, route, signers, decimals, tokenProgram, allowed).value,
                  route.policy, signers, inner)
    ensures IsTheTransfer(inner, addresses, request, decimals, tokenProgram)
  {
    AboveLimitShape(addresses, request, route, signers, decimals, tokenProgram, allowed);
    var t := AboveLimitTransfer(addresses, request, decimals, tokenProgram).value;
    inner := Inner(t.programId, MetaKeys(t.metas), t.data);
    SyncWraps(route.policy, signers, ConstraintIndex(t.programId, allowed).value, t);
    TransferIsTheTransfer(addresses, request, decimals, tokenProgram);
  }

  /**
   * A built Spend under a limit asks its one signer's policy for the amount, destination
   * and decimals requested, over the accounts that policy reads for the mint.
   */
  lemma BuiltLimitSpendIs(
    addresses: Addresses, request: SpendRequest, route: Route, signers: seq<Key>, decimals: nat,
    tokenProgram: Option<Key>, allowed: seq<Key>)
    requires route.LimitRoute?
    requires Buildable(request, route, signers, decimals, tokenProgram, allowed)
    ensures var ix := BuildSpend(addresses, request, route, signers, decimals, tokenProgram, allowed).value;
            && ix.programId == SquadsProgram
            && ix.data == Args(ExecuteTransactionSyncV2(
                                 0, 1, UnderPolicy(SpendUnderLimit(request.amount, request.destination, decimals))))
            && |ix.accounts| == (if request.mint == NATIVE_MINT then 6 else 8)
            && ix.accounts[..4] == [route.policy, SquadsProgram, signers[0], addresses.vault]
            && if request.mint == NATIVE_MINT then ix.accounts[4..] == [request.destination, SystemProgram]
               else
                 && ix.accounts[4] == TokenAccount(addresses.vault, request.mint, tokenProgram.value)
                 && Credits(request, tokenProgram.value, ix.accounts[5])
                 && ix.accounts[6..] == [request.mint, tokenProgram.value]
  {
  }

  lemma {:induction false} DedupDistinct(keys: seq<Key>)
    requires forall i, j :: 0 <= i < j < |keys| ==> keys[i] != keys[j]
    ensures Dedup(keys) == keys
    decreases |keys|
  {
    if keys != [] {
      DedupDistinct(keys[..|keys| - 1]);
      assert keys == keys[..|keys| - 1] + [keys[|keys| - 1]];
    }
  }

  /** The keys are those of one group, or none of them is. */
  lemma {:induction false} GroupAll(keys: seq<Key>, metas: seq<Meta>, signer: bool, writable: bool)
    requires forall k :: k in keys ==> SignerIn(metas, k) == signer && WritableIn(metas, k) == writable
    ensures Grouped(keys, metas, signer, writable) == keys
    ensures forall s, w :: (s != signer || w != writable) ==> Grouped(keys, metas, s, w) == []
  {
    if keys != [] {
      forall k | k in keys[1..] ensures k in keys {}
      GroupAll(keys[1..], metas, signer, writable);
      assert keys[0] in keys;
    }
  }

  lemma {:induction false} GroupedJoin(a: seq<Key>, b: seq<Key>, metas: seq<Meta>, signer: bool, writable: bool)
    ensures Grouped(a + b, metas, signer, writable)
         == Grouped(a, metas, signer, writable) + Grouped(b, metas, signer, writable)
  {
    if a == [] {
      assert a + b == b;
    } else {
      assert (a + b)[0] == a[0] && (a + b)[1..] == a[1..] + b;
      GroupedJoin(a[1..], b, metas, signer, writable);
      var first := Grouped(a[1..], metas, signer, writable);
      assert [a[0]] + (first + Grouped(b, metas, signer, writable))
          == [a[0]] + first + Grouped(b, metas, signer, writable);
    }
  }

  /** Three runs of keys, one group each: the signing vault, what is written, what is only read. */
  lemma ThreeGroups(read: seq<Key>, written: seq<Key>, vault: Key, metas: seq<Meta>, s: bool, w: bool)
    requires forall k :: k in read ==> !SignerIn(metas, k) && !WritableIn(metas, k)
    requires forall k :: k in written ==> !SignerIn(metas, k) && WritableIn(metas, k)
    requires SignerIn(metas, vault) && WritableIn(metas, vault)
    ensures Grouped(read, metas, s, w) == if !s && !w then read else []
    ensures Grouped(written, metas, s, w) == if !s && w then written else []
    ensures Grouped([vault], metas, s, w) == if s && w then [vault] else []
  {
    GroupAll(read, metas, false, false);
    GroupAll(written, metas, false, true);
    GroupAll([vault], metas, true, true);
  }

  function SolMetas(vault: Key, to: Key): seq<Meta> {
    [Meta(vault, true, true), Meta(to, false, true)]
  }

  lemma SolTable(vault: Key, to: Key, data: seq<byte>)
    requires vault != to && SystemProgram !in {vault, to}
    ensures AccountTable(Transfer(SystemProgram, SolMetas(vault, to), data)) == [vault, to, SystemProgram]
  {
    var keys := [SystemProgram, vault, to];
    assert [SystemProgram] + MetaKeys(SolMetas(vault, to)) == keys == [SystemProgram] + ([vault] + [to]);
    DedupDistinct(keys);
    SolOrder(vault, to);
  }

  lemma SolOrder(vault: Key, to: Key)
    requires vault != to && SystemProgram !in {vault, to}
    ensures InOrder([SystemProgram] + ([vault] + [to]), SolMetas(vault, to)) == [vault, to, SystemProgram]
  {
    var metas := SolMetas(vault, to);
    assert metas[0] in metas && metas[1] in metas;
    SolGroup(vault, to, metas, true, true);
    SolGroup(vault, to, metas, true, false);
    SolGroup(vault, to, metas, false, true);
    SolGroup(vault, to, metas, false, false);
    InOrderIs([SystemProgram] + ([vault] + [to]), metas, [vault], [to], [SystemProgram]);
  }

  lemma SolGroup(vault: Key, to: Key, metas: seq<Meta>, s: bool, w: bool)
    requires SignerIn(metas, vault) && WritableIn(metas, vault) && !SignerIn(metas, to) && WritableIn(metas, to)
    requires !SignerIn(metas, SystemProgram) && !WritableIn(metas, SystemProgram)
    ensures Grouped([SystemProgram] + ([vault] + [to]), metas, s, w)
         == if s then (if w then [vault] else []) else if w then [to] else [SystemProgram]
  {
    ThreeGroups([SystemProgram], [to], vault, metas, s, w);
    GroupedJoin([SystemProgram], [vault] + [to], metas, s, w);
    GroupedJoin([vault], [to], metas, s, w);
  }

  /** A token transfer's accounts, with the roles each has in it. */
  function TokenMetas(vault: Key, source: Key, to: Key, mint: Key): seq<Meta> {
    [Meta(source, false, true), Meta(mint, false, false), Meta(to, false, true), Meta(vault, true, true)]
  }

  lemma InOrderIs(keys: seq<Key>, metas: seq<Meta>, signing: seq<Key>, written: seq<Key>, read: seq<Key>)
    requires Grouped(keys, metas, true, true) == signing && Grouped(keys, metas, true, false) == []
    requires Grouped(keys, metas, false, true) == written && Grouped(keys, metas, false, false) == read
    ensures InOrder(keys, metas) == signing + written + read
  {
  }

  lemma TokenTable(vault: Key, source: Key, to: Key, program: Key, mint: Key, data: seq<byte>)
    requires |{vault, source, to, program, mint}| == 5
    ensures AccountTable(Transfer(program, TokenMetas(vault, source, to, mint), data))
         == [vault, source, to, program, mint]
  {
    FiveApart(vault, source, to, program, mint);
    TokenKeys(vault, source, to, program, mint);
    TokenOrder(vault, source, to, program, mint);
  }

  predicate Apart(vault: Key, source: Key, to: Key, program: Key, mint: Key) {
    && vault != source && vault != to && vault != program && vault != mint
    && source != to && source != program && source != mint && to != program && to != mint && program != mint
  }

  lemma TokenOrder(vault: Key, source: Key, to: Key, program: Key, mint: Key)
    requires Apart(vault, source, to, program, mint)
    ensures InOrder([program] + ([source] + ([mint] + ([to] + [vault]))), TokenMetas(vault, source, to, mint))
         == [vault] + [source, to] + [program, mint]
  {
    var metas := TokenMetas(vault, source, to, mint);
    TokenRoles(vault, source, to, program, mint);
    var keys := [program] + ([source] + ([mint] + ([to] + [vault])));
    TokenGroups(vault, source, to, program, mint, metas);
    InOrderIs(keys, metas, [vault], [source, to], [program, mint]);
  }

  lemma TokenRoles(vault: Key, source: Key, to: Key, program: Key, mint: Key)
    requires Apart(vault, source, to, program, mint)
    ensures var metas := TokenMetas(vault, source, to, mint);
            && SignerIn(metas, vault) && WritableIn(metas, vault)
            && !SignerIn(metas, source) && WritableIn(metas, source) && !SignerIn(metas, to) && WritableIn(metas, to)
            && !SignerIn(metas, program) && !WritableIn(metas, program)
            && !SignerIn(metas, mint) && !WritableIn(metas, mint)
  {
    var metas := TokenMetas(vault, source, to, mint);
    assert metas[0] in metas && metas[2] in metas && metas[3] in metas;
  }

  lemma TokenKeys(vault: Key, source: Key, to: Key, program: Key, mint: Key)
    requires Apart(vault, source, to, program, mint)
    ensures Dedup([program] + MetaKeys(TokenMetas(vault, source, to, mint)))
         == [program] + ([source] + ([mint] + ([to] + [vault])))
  {
    var keys := [program, source, mint, to, vault];
    assert MetaKeys(TokenMetas(vault, source, to, mint)) == [source, mint, to, vault];
    assert [program] + MetaKeys(TokenMetas(vault, source, to, mint)) == keys;
    DedupDistinct(keys);
  }

  lemma TokenGroups(vault: Key, source: Key, to: Key, program: Key, mint: Key, metas: seq<Meta>)
    requires SignerIn(metas, vault) && WritableIn(metas, vault)
    requires !SignerIn(metas, source) && WritableIn(metas, source) && !SignerIn(metas, to) && WritableIn(metas, to)
    requires !SignerIn(metas, program) && !WritableIn(metas, program)
    requires !SignerIn(metas, mint) && !WritableIn(metas, mint)
    ensures var keys := [program] + ([source] + ([mint] + ([to] + [vault])));
            && Grouped(keys, metas, true, true) == [vault] && Grouped(keys, metas, true, false) == []
            && Grouped(keys, metas, false, true) == [source, to]
            && Grouped(keys, metas, false, false) == [program, mint]
  {
    TokenGroup(vault, source, to, program, mint, metas, true, true);
    TokenGroup(vault, source, to, program, mint, metas, true, false);
    TokenGroup(vault, source, to, program, mint, metas, false, true);
    TokenGroup(vault, source, to, program, mint, metas, false, false);
  }

  lemma PairGroup(a: Key, b: Key, rest: seq<Key>, metas: seq<Meta>, s: bool, w: bool)
    ensures Grouped([a] + ([b] + rest), metas, s, w)
         == Grouped([a], metas, s, w) + (Grouped([b], metas, s, w) + Grouped(rest, metas, s, w))
  {
    GroupedJoin([a], [b] + rest, metas, s, w);
    GroupedJoin([b], rest, metas, s, w);
  }

  lemma TokenGroup(vault: Key, source: Key, to: Key, program: Key, mint: Key, metas: seq<Meta>, s: bool, w: bool)
    requires SignerIn(metas, vault) && WritableIn(metas, vault)
    requires !SignerIn(metas, source) && WritableIn(metas, source) && !SignerIn(metas, to) && WritableIn(metas, to)
    requires !SignerIn(metas, program) && !WritableIn(metas, program)
    requires !SignerIn(metas, mint) && !WritableIn(metas, mint)
    ensures Grouped([program] + ([source] + ([mint] + ([to] + [vault]))), metas, s, w)
         == if s then (if w then [vault] else []) else if w then [source, to] else [program, mint]
  {
    ThreeGroups([program], [source], vault, metas, s, w);
    ThreeGroups([mint], [to], vault, metas, s, w);
    PairGroup(program, source, [mint] + ([to] + [vault]), metas, s, w);
    PairGroup(mint, to, [vault], metas, s, w);
  }

  lemma FiveApart(a: Key, b: Key, c: Key, d: Key, e: Key)
    requires |{a, b, c, d, e}| == 5
    ensures Apart(a, b, c, d, e)
  {
    FourAtMost(a, b, c, d, e);
    FourAtMost(b, a, c, d, e);
    FourAtMost(c, a, b, d, e);
    FourAtMost(d, a, b, c, e);
    assert {b, a, c, d, e} == {a, b, c, d, e} && {c, a, b, d, e} == {a, b, c, d, e};
    assert {d, a, b, c, e} == {a, b, c, d, e};
  }

  lemma FourAtMost(a: Key, b: Key, c: Key, d: Key, e: Key)
    ensures a in {b, c, d, e} ==> |{a, b, c, d, e}| <= 4
  {
    if a in {b, c, d, e} { assert {a, b, c, d, e} == {b, c, d, e}; }
  }

  /**
   * The accounts after the signers, for a Spend between distinct accounts: the vault that
   * signs for it, what it writes to, and last what it only reads.
   */
  lemma AboveLimitTable(
    addresses: Addresses, request: SpendRequest, route: Route, signers: seq<Key>, decimals: nat,
    tokenProgram: Option<Key>, allowed: seq<Key>)
    requires route.TwoSignature?
    requires Buildable(request, route, signers, decimals, tokenProgram, allowed)
    ensures var rest := BuildSpend(addresses, request, route, signers, decimals, tokenProgram, allowed).value
                        .accounts[2 + |signers|..];
            if request.mint == NATIVE_MINT then
              addresses.vault != request.destination && SystemProgram !in {addresses.vault, request.destination}
              ==> rest == [addresses.vault, request.destination, SystemProgram]
            else
              var program := tokenProgram.value;
              var source := TokenAccount(addresses.vault, request.mint, program);
              forall to :: Credits(request, program, to) && |{addresses.vault, source, to, program, request.mint}| == 5
                ==> rest == [addresses.vault, source, to, program, request.mint]
  {
    AboveLimitShape(addresses, request, route, signers, decimals, tokenProgram, allowed);
    var t := AboveLimitTransfer(addresses, request, decimals, tokenProgram).value;
    AfterSigners(route.policy, signers, AccountTable(t));
    if request.mint == NATIVE_MINT {
      if addresses.vault != request.destination && SystemProgram !in {addresses.vault, request.destination} {
        SolTable(addresses.vault, request.destination, t.data);
      }
    } else {
      var to := DestinationTokenAccount(request, tokenProgram.value);
      var source := TokenAccount(addresses.vault, request.mint, tokenProgram.value);
      if |{addresses.vault, source, to, tokenProgram.value, request.mint}| == 5 {
        TokenTable(addresses.vault, source, to, tokenProgram.value, request.mint, t.data);
      }
    }
  }

  lemma TransferIsTheTransfer(addresses: Addresses, request: SpendRequest, decimals: nat, tokenProgram: Option<Key>)
    requires AboveLimitTransfer(addresses, request, decimals, tokenProgram).Ok?
    ensures var t := AboveLimitTransfer(addresses, request, decimals, tokenProgram).value;
            IsTheTransfer(Inner(t.programId, MetaKeys(t.metas), t.data), addresses, request, decimals, tokenProgram)
  {
    if request.mint == NATIVE_MINT {
      SystemTransferIs(request.amount);
    } else {
      TransferCheckedIs(request.amount, decimals);
    }
  }

  /** The index a Spend cites names its own program on the policy its allowlist created. */
  lemma ConstraintNamesProgram(
    addresses: Addresses, request: SpendRequest, route: Route, signers: seq<Key>, decimals: nat,
    tokenProgram: Option<Key>, allowed: seq<Key>)
    requires route.TwoSignature?
    requires Buildable(request, route, signers, decimals, tokenProgram, allowed)
    requires B.AboveLimitPayload(allowed).Ok?
    ensures var ix := BuildSpend(addresses, request, route, signers, decimals, tokenProgram, allowed).value;
            && ix.data.Args? && ix.data.args.ExecuteTransactionSyncV2? && ix.data.args.payload.UnderPolicy?
            && var payload := ix.data.args.payload.payload;
            && payload.Interaction? && payload.transaction.SyncTransaction? && |ix.accounts| >= 2 + |signers|
            && CitesOwnPrograms(payload.constraintIndices,
                                ParseInner(payload.transaction.instructions, ix.accounts[2 + |signers|..]),
                                B.AboveLimitPayload(allowed).value.constraints)
  {
    AboveLimitShape(addresses, request, route, signers, decimals, tokenProgram, allowed);
    var ix := BuildSpend(addresses, request, route, signers, decimals, tokenProgram, allowed).value;
    var transfer := AboveLimitTransfer(addresses, request, decimals, tokenProgram).value;
    AfterSigners(route.policy, signers, AccountTable(transfer));
    TransferCites(transfer, allowed);
  }

  lemma AfterSigners(policy: Key, signers: seq<Key>, rest: seq<Key>)
    ensures ([policy, SquadsProgram] + (signers + rest))[2 + |signers|..] == rest
    ensures ([policy, SquadsProgram] + (signers + rest))[..2 + |signers|] == [policy, SquadsProgram] + signers
  {
  }

  lemma TransferCites(t: Transfer, allowed: seq<Key>)
    requires |t.metas| <= 4 && |t.data| < U16_LIMIT
    requires ConstraintIndex(t.programId, allowed).Ok? && B.AboveLimitPayload(allowed).Ok?
    ensures CitesOwnPrograms([ConstraintIndex(t.programId, allowed).value],
                             ParseInner(EncodeTransfer(t), AccountTable(t)),
                             B.AboveLimitPayload(allowed).value.constraints)
  {
    ParseTransfer(t);
  }

  /** One constraint cited per parsed instruction, each for that instruction's own program. */
  predicate CitesOwnPrograms(indices: seq<nat>, parsed: Option<seq<Inner>>, constraints: seq<Constraint>) {
    && parsed.Some? && |indices| == |parsed.value|
    && forall i :: 0 <= i < |indices| ==>
         indices[i] < |constraints| && constraints[indices[i]].programId == parsed.value[i].programId
  }
}
