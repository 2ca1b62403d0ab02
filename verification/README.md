# Prydd: a verified model

Prydd is a consumer wallet whose accounts are Squads smart accounts: a Settings
account with three signers (a primary, an approval signer on the phone, a
recovery signer), and two policies, one letting the primary spend alone under a
limit and one asking both on-device signers for everything else. This project
models the parts of the repository that decide what such an Account can become
and what a device will sign, and proves what they are for.

`dafny verify dfyconfig.toml` checks everything.

## How it is laid out

- **The Account over time.** `Builders` turns intents into action lists, and
  `Refusals` says exactly which they refuse.
  `Chain` is the Account and what executing a list does to it. `Lifecycle` runs
  changes built from an Account's own current keys; `LifecycleProofs` holds the
  creation and the rotations to the invariant; `Rotations` proves that rotations are
  renamings; `Effects` proves the exact effect of every other change and, from all
  of them, the invariant of every run.
- **Spends and messages.** `Wire` is the byte codec. `Spend` picks a route and
  builds the one instruction that pays. `Describe` reads a message back, `Readings`
  says exactly which messages read as what, and `Verify` decides whether one is what
  was asked for. `SpendAgreement`,
  `SettingsAgreement` and `SettingsSoundness` tie the four together in both
  directions: what is built is accepted, and what is accepted does only what was
  granted. `ActionLists` is what any list of actions does, and `Ballots` reads votes.
  `AcceptedChanges` and `AcceptedRules` say exactly when an accepted change keeps the
  Account as promised, walk by walk, and `AcceptanceGaps` shows one that does not.
- **Signing walks.** `Walks` runs the five loops against an arbitrary server;
  `WalkSafety` says what their acceptance is worth on chain.
- **Rejection.** `Rejection` prepares a refusal for whoever has not refused yet;
  `RejectionService` pins it and forwards only what was pinned.
- **Checkout sheet.** `Listener` is the single-shot message listener,
  `SheetSession` the session as steps, `Sheet` the callbacks over their shared
  variables, each proved to take its step.
- **Smaller algorithms.** `Balance`, `Decimal` and `Money`, `SecondCheck`,
  `Sorting` and `Activity`, `PendingPayments`, `OriginCache`.

Loops and callbacks that change state in the source are methods here, proved
against functions; the properties are lemmas about those functions, among them a
second statement of what the operation does, made from its inputs alone.

## How the world is taken

- Derived addresses are free constructors in `Keys`: two are equal exactly when
  they were derived from the same things. The native mint is the System program's
  key, as in the source.
- Squads instruction arguments appear decoded; System, Token, associated-token and
  compute-budget data and the wrapped instruction list are bytes.
- The program's rules are those the builders' comments state: an added key must be
  new, a removed one present, a policy seed is the next one and is never reused, a
  policy is rewritten whole with its own signers, and the vote holders left at the
  end must meet the threshold. The intermediate states are not checked by the
  program, which is why `Rotations.NoPrefixDips` is a theorem about the builders.
- The server, the signers and the network are arbitrary functions or event orders.
  `Walks` is stated for any message check a device brings; `Walks.Shipped` brings
  the one `Verify.CheckSettings` decides.
- Time, blockhashes, nonces and fetched answers are parameters.

## Where the code falls short of its text

Each comes with its exact condition, or with a run that shows it.

- A signing walk does not read the transaction again after the approval signer
  returns it: "everything handed to a signer was checked" holds exactly under the
  condition `Walks.HandsOnlyAcceptedIff` gives, and
  `WalkSafety.UnreadMessageIsSigned` is a run of the shipped device outside it.
- A message that only votes is accepted for any expectation of its vault, and it is
  the only kind that is (`Ballots.PassesWhateverExpectedIff`); the walk's bounds
  speak about what a message proposes, not about an earlier proposal it votes on.
- Which account an accepted Spend debits is not checked for a wrapped token transfer
  (`SpendAgreement.DebitsTheVaultIff`, `AnySourceIsAccepted`), and which it credits
  is not checked for an unopened token Spend under a limit
  (`SpendAgreement.CreditsTheDestinationIff`, `AnyAccountIsCredited`). Both are left
  to the programs that execute it.
- Acceptance does not look at the masks of added keys, at what a rule is made or
  rewritten to, or at which rule is taken away. Each walk's accepted changes keep the
  Account well formed exactly under the conditions in `AcceptedChanges` (the rotations
  and the recovery change) and `AcceptedRules` (the limit change and provisioning), and
  `AcceptanceGaps` has a change for each that does not: a rotation handing the
  above-limit rule to a stranger, a recovery change taking out the Account's own key, a
  limit change taking that rule away, a provisioning giving both rules to a stranger.
  The recovery walk's comment says nothing touches the spending rules, yet its bounds
  allow one to be rewritten.
- A rotation step that names the retired key itself as the new one is not refused, and
  can leave the Account's own key with no permission
  (`AcceptanceGaps.OwnKeyCanBeStripped`). One that names no new key is not refused
  either, and never leaves the Account well formed
  (`AcceptedChanges.AcceptedRetirementNeverKeeps`).
- The primary rotation restates the spending limit, so an Account without one has
  no primary rotation (`Rotations.RotatePrimaryLandsIff`), and the recovery rotation
  does not check that the key it retires is a recovery key
  (`Rotations.RotateRecoveryKeepsIff`).
- A rotation writes the allowlist it is passed, not the one on chain: it is a renaming
  exactly when the two agree (`Rotations.RotatePrimaryRenamesIff`,
  `RotateApprovalRenamesIff`).
- An Account that took its spending limit off counts as not provisioned, so a change
  staged on it cannot be refused (`Rejection.NoRefusalWithoutLimit`).
- An intent created with an empty reference is reported with it
  (`SheetSession.ReferenceNeverEmptyIff`).
- A re-save interrupted after its first write pairs the old payment with the new
  bytes; `PendingPayments.SavedIsLoaded` says exactly which pair is loaded, and when
  it is one that was saved. Empty bytes count as missing
  (`PendingPayments.EmptyIsNeverLoaded`).
- Two users whose ids have one sanitized form share their pending payments
  (`PendingPayments.ApartIff`); ids of one provider's form never do
  (`PendingPayments.OneFormNeverMeets`).
- The origin cache's key leaves out the API base, so a hit answers this launch's
  question exactly when it came from this launch's API (`OriginCache.HitsAreAnswers`,
  `CrossApis`).
- The balance line runs backwards in time when a row is dated after now
  (`Balance.LineIsDrawable`).
- The second-check warning does not look at destination lists
  (`SecondCheck.DestinationsGoUnwarned`).

## Model

| member | source | states |
|---|---|---|
| `Builders.AssertSignerSet` | packages/smart-account/src/account.ts:48-60 | creation accepts three signers exactly when every role is among them and their addresses are distinct; a refusal names a role that is missing, or a repeated address |
| `LifecycleProofs.CreatedWellFormed` | packages/smart-account/src/account.ts:87-114 | every Account creation accepts is well formed: one primary, one approval, one vote-only recovery key, threshold 2, no policies |
| `LifecycleProofs.CreatedIff` | packages/smart-account/src/account.ts:87-114 | an Account is built exactly from one signer of each role, at three addresses |
| `LifecycleProofs.CreatedIs` | packages/smart-account/src/account.ts:29-114 | creation asks for a threshold of two, the lock given, the seed's own addresses, and each signer as given with its role's permissions: all of them on the device, the vote alone for recovery |
| `Effects.EveryRunIsWellFormed` | packages/smart-account/src/policy.ts:328-943 | from any accepted creation, after any sequence of changes whether or not they land: signers distinct, one primary and one approval with all permissions, at least one recovery key and nothing but vote-only ones, both policies of exactly the promised shape, and no recovery key on any policy |
| `Effects.StepKeepsWellFormed` | packages/smart-account/src/policy.ts:328-943 | each single change, landed or refused, keeps a well-formed Account well formed |
| `Effects.StepIsIntended` | packages/smart-account/src/policy.ts:84-396 | each change other than a rotation lands exactly under a condition visible beforehand, and then leaves exactly the intended Account (which field, which policy, which seed) and nothing else moved |
| `Effects.ProvisionIs` | packages/smart-account/src/policy.ts:900-943 | provisioning lands exactly with no rules yet and a per-use cap within the period's, and leaves both rules at the next two seeds and the lock asked for |
| `Effects.UpdateLimitIs` | packages/smart-account/src/policy.ts:738-784 | a limit is rewritten exactly when it exists, keeps its mint, changes some term and keeps its caps in order; only that policy changes |
| `Effects.RemovableIff` | packages/smart-account/src/policy.ts:370-396 | the builder agrees to remove a key exactly when it is a recovery key and another one is left |
| `Lifecycle.RequestDoesNotMatter` | packages/smart-account/src/policy.ts:41-64 | two requests with the Account's addresses and one proposer are built alike, with the same policies and actions, or refused alike: neither the transaction index nor who funds the rent matters |
| `Lifecycle.PoliciesAreNamed` | packages/smart-account/src/policy.ts:66-103 | every built change lists exactly the rules its actions name, made, rewritten or dropped, in the order they name them |
| `Lifecycle.ProposedIs` | packages/smart-account/src/policy.ts:41-103 | every built change is two instructions on the Account's own Settings, the change and its proposal, both at the request's index, signed by its proposer and paid for by its rent payer |
| `Lifecycle.ExecutionCarriesTheRules` | packages/smart-account/src/policy.ts:118-163 | executed with that list, a change is given its six own accounts and then those rules in that order |
| `Rotations.NoPrefixDips` | packages/smart-account/src/policy.ts:424-430 | applying any prefix of any built action list leaves at least the threshold's worth of vote holders |
| `Rotations.SignerBalance` | packages/smart-account/src/policy.ts:424-430 | the signer count moves by exactly the keys added less the keys removed, over any list of actions that applies |
| `Rotations.RotatePrimaryRenames` | packages/smart-account/src/policy.ts:606-677 | rotating the primary is the renaming of one key throughout the Settings and both policies, all terms, thresholds, locks and lists otherwise unchanged |
| `Rotations.RotateApprovalRenames` | packages/smart-account/src/policy.ts:505-541 | the same for the approval signer |
| `Rotations.RotateRecoveryRenames` | packages/smart-account/src/policy.ts:431-453 | the same for a recovery key, with no policy touched |
| `Rotations.RotatePrimaryRenamesIff` | packages/smart-account/src/policy.ts:606-677 | built with any accepted allowlist, a primary rotation still lands, and is the renaming exactly when the list is the one the rule carries |
| `Rotations.RotateApprovalRenamesIff` | packages/smart-account/src/policy.ts:505-541 | the same for an approval rotation |
| `Rotations.RotatePrimaryAndBack` | packages/smart-account/src/policy.ts:606-677 | there and back restores the Account up to the order of its signers |
| `Rotations.RotateApprovalAndBack` | packages/smart-account/src/policy.ts:505-541 | the same for the approval signer |
| `Rotations.RotateRecoveryAndBack` | packages/smart-account/src/policy.ts:431-453 | the same for a recovery key |
| `Rotations.RotatePrimaryLandsIff` | packages/smart-account/src/policy.ts:606-677 | a primary rotation lands exactly when both a spending limit and an above-limit rule are there and the new key is not yet a signer; an Account that took its limit off cannot rotate its primary |
| `Rotations.RotateApprovalLandsIff` | packages/smart-account/src/policy.ts:505-541 | an approval rotation lands exactly when the above-limit rule is there and the new key is not yet a signer |
| `Rotations.RotateRecoveryKeepsIff` | packages/smart-account/src/policy.ts:431-453 | the builder does not check whose key it retires: what it builds always executes, and keeps the Account well formed exactly when the retired key was a recovery key |
| `Builders.AboveLimitPayload` | packages/smart-account/src/policy.ts:1098-1141 | refused exactly when the allowlist is empty, longer than twenty or names a program twice; otherwise one program-only constraint per program, in its own order |
| `Builders.LimitPayload` | packages/smart-account/src/policy.ts:966-997 | terms are refused exactly when the per-use cap exceeds the period's; otherwise the payload holds exactly those terms, over the primary account, from now, with nothing accumulated |
| `Refusals.UpdatesIff` | packages/smart-account/src/policy.ts:738-784 | a limit's update is built exactly by a proposer on the Settings holding the permission to propose, for a signer on them, in its mint, to other terms with caps in order, at its own seed; each refusal is for its own reason |
| `Refusals.RemovesIff` | packages/smart-account/src/policy.ts:819-843 | its removal exactly by such a proposer, at its own seed |
| `Refusals.RotatesPrimaryIff` | packages/smart-account/src/policy.ts:606-677 | the primary's rotation exactly where the approval signer may propose it, to a third key, with both rules at their seeds and writable as they stand |
| `Refusals.RotatesApprovalIff` | packages/smart-account/src/policy.ts:505-541 | the approval signer's exactly to a third key, with an allowlist the program takes |
| `Refusals.ProvisionsIff` | packages/smart-account/src/policy.ts:900-943 | provisioning exactly for two seeds, two keys, caps in order and such an allowlist |
| `Wire.ParseInnerInstructions` | packages/smart-account/src/describe.ts:478-530 | the cursor loop ends, stays in bounds and returns what the grammar's recursive reading returns |
| `Wire.ParseIffEncoding` | packages/smart-account/src/describe.ts:478-530 | a byte string is accepted as a list exactly when it is that list's documented encoding with every index in the account table |
| `Wire.ParsePrefixFree` | packages/smart-account/src/describe.ts:478-530 | no accepted byte string is a proper prefix of another, whatever the two account tables |
| `Wire.ReadBack` | packages/smart-account/src/spend.ts:377-427 | a little-endian integer that fits its width reads back |
| `Wire.WriteBack` | packages/smart-account/src/describe.ts:532-572 | any bytes are the encoding of the integer read from them |
| `Wire.LastCountsMost` | packages/smart-account/src/describe.ts:506-510 | bytes are read least significant first: each counts for 256 to the number of bytes before it |
| `Wire.LayoutIs` | packages/smart-account/src/describe.ts:490-523 | one instruction on the wire is its program's index, how many accounts, their indices, the data's length in two bytes low first, and the data |
| `Spend.ResolveSpendRoute` | packages/smart-account/src/spend.ts:114-153 | one signature under the first limit that admits the Spend, else two, with the reason of the last limit in its mint |
| `Spend.RouteIsUnique` | packages/smart-account/src/spend.ts:114-153 | the route's specification allows one answer |
| `Spend.OneSignatureDownwardClosed` | packages/smart-account/src/spend.ts:114-153 | a smaller amount to the same place never needs more signatures |
| `Spend.ReasonsMean` | packages/smart-account/src/spend.ts:114-153 | one signature exactly when some limit admits it; `no limit` exactly when there is none; `different mint` exactly when there are limits and none shares the mint |
| `Spend.LastLimitSays` | packages/smart-account/src/spend.ts:128-153 | the other three reasons are the first thing the last limit in the mint has against the Spend: its per-use cap, what is left of its period, its destinations |
| `Spend.TransferCheckedData` | packages/smart-account/src/spend.ts:377-427 | the buffer filled in place is ten bytes: tag 12, the amount read back little-endian from the next eight, and the decimals |
| `Spend.BuildSpend` | packages/smart-account/src/spend.ts:189-293 | an instruction is built exactly when the signers are as many as the route asks, a token's program is known and, above the limit, the amount is a u64, the decimals a byte and the program on the allowlist |
| `Spend.BuiltLimitSpendIs` | packages/smart-account/src/spend.ts:189-222 | under a limit the instruction asks the route's policy for the requested amount, destination and decimals, over one signer and the accounts that policy reads for the mint |
| `Spend.BuiltAboveLimitWraps` | packages/smart-account/src/spend.ts:223-427 | above the limit it is addressed to the route's policy with its signers first, and parses back to the one transfer asked for: program, accounts, tag, amount and the decimals byte the program checks |
| `Spend.AboveLimitTable` | packages/smart-account/src/spend.ts:249-293 | between distinct accounts, what follows the signers is the vault that signs, then what is written, then what is only read |
| `Spend.ConstraintNamesProgram` | packages/smart-account/src/spend.ts:295-322 | every constraint index a built above-limit Spend cites points, in the policy its allowlist created, at the wrapped instruction's own program |
| `Spend.ParseTransfer` | packages/smart-account/src/spend.ts:249-293 | the wrapped transfer, compiled against its account table and encoded, parses back to itself |
| `SpendAgreement.BuiltSpendReadsBack` | packages/smart-account/src/spend.ts:189-293 | on both routes, for every mint and u64 amount, the built instruction decodes to the vault, policy, signers, mint, amount and paid account asked for |
| `SpendAgreement.BuiltSpendAccepted` | apps/mobile/utils/verifyTransaction.ts:87-118 | a built Spend, among any compute-budget instructions, is accepted exactly for its own mint, amount and paid account; an above-limit token Spend is paid to its token account |
| `SpendAgreement.BuiltSpendWithOpeningAccepted` | apps/mobile/utils/verifyTransaction.ts:87-118 | with the recipient's token account opened beside it, a token Spend on either route is accepted exactly for the recipient |
| `SpendAgreement.AcceptedSpendMovesExactly` | packages/smart-account/src/describe.ts:589-699 | an accepted Spend is one money-moving instruction, at most one opening of the account it pays owned by the recipient, and compute-budget instructions: what moves is one movement of exactly the expected amount of the expected mint, on the vault's say, to the account described |
| `SpendAgreement.DebitsTheVaultIff` | packages/smart-account/src/describe.ts:552-572 | the account an accepted Spend debits is the vault's own exactly when a wrapped transfer, if that is what pays, names the vault's own: the debited account is checked under a limit and not above it |
| `SpendAgreement.CreditsTheDestinationIff` | packages/smart-account/src/describe.ts:351-427 | the account an accepted Spend credits is the destination's exactly when it was opened beside the Spend, or the Spend is not a token Spend under a limit, or that Spend names such an account |
| `SpendAgreement.AnySourceIsAccepted` | packages/smart-account/src/describe.ts:552-572 | whatever account a wrapped token transfer debits, some message with it is accepted |
| `SpendAgreement.AnyAccountIsCredited` | packages/smart-account/src/describe.ts:390-427 | whatever account an unopened token Spend under a limit credits, some message with it is accepted for the destination it shows |
| `Describe.ComputeBudgetInvisible` | packages/smart-account/src/describe.ts:589-657 | two messages that agree once compute-budget instructions are taken out have the same description |
| `Readings.OpensIff` | packages/smart-account/src/describe.ts:574-587 | an instruction reads as an opening exactly when it is an associated-token create of the account its owner, mint and token program derive |
| `Readings.ComputeBudgetIff` | packages/smart-account/src/describe.ts:282-285 | compute-budget instructions are let through exactly when they are one of the four harmless ones |
| `Readings.TransfersIff` | packages/smart-account/src/describe.ts:532-572 | an instruction reads as a transfer exactly when its bytes are a lamport or a checked token transfer of that amount between those accounts |
| `Readings.VotesIff` | packages/smart-account/src/describe.ts:292-349 | an instruction reads as a vote exactly when it is that Squads instruction on that Settings, signer and proposal |
| `Readings.ProposesIff` | packages/smart-account/src/describe.ts:300-315 | an instruction reads as a change exactly when it is that Squads instruction on that Settings, address and proposer |
| `Readings.ProposalsIff` | packages/smart-account/src/describe.ts:316-326 | and as a proposal exactly when it is that one, at that index |
| `Readings.ChangesIff` | packages/smart-account/src/describe.ts:714-768 | a message reads as a change exactly when it carries one change and its one proposal, with addresses that agree, every vote on it, nothing unknown and nothing that moves money, on this vault's Settings |
| `Readings.VotesAloneIff` | packages/smart-account/src/describe.ts:770-806 | a message reads as votes exactly when it only votes, at least once, all on one proposal of this vault's Settings |
| `Readings.BareTransfersIff` | packages/smart-account/src/describe.ts:640-699 | a message reads as a transfer exactly when one transfer is all it is, but for an opening of the account it pays, owned by whoever it says it pays if it says |
| `Readings.ContextOnlyNames` | packages/smart-account/src/describe.ts:701-712 | what a context knows beyond the vault names a Spend's route and refuses other Settings, and alters nothing else |
| `Readings.ResolvedIff` | packages/smart-account/src/describe.ts:199-238 | a message is read exactly when it is v0, its tables are resolved and every index is on it, and then each instruction is its own indices looked up |
| `Readings.OnlyWhatIsRead` | packages/smart-account/src/describe.ts:186-238 | a message that cannot be read is Unknown, and one that can is described by its instructions alone |
| `Readings.ProgramOnlyIff` | packages/smart-account/src/describe.ts:880-893 | a rule is shown as naming programs only exactly when no constraint of it carries account or data rules |
| `Describe.DescribeTransaction` | packages/smart-account/src/describe.ts:186-238 | the reading loop, which stops at the first instruction it cannot resolve or decode, gives the description of the whole message |
| `Verify.CheckSpend` | apps/mobile/utils/verifyTransaction.ts:87-118 | accepts exactly a Spend from this vault paying the expected party the expected amount of the expected mint |
| `Verify.CheckSettings` | apps/mobile/utils/verifyTransaction.ts:197-256 | accepts exactly votes for this vault, or a change of this vault whose actions meet the counting specification |
| `Verify.CheckActions` | apps/mobile/utils/verifyTransaction.ts:208-256 | the decrementing loop accepts exactly the lists whose every action is permitted and whose counts per kind are as granted: creations, removals and named keys exact, updates bounded, lock and threshold the named values |
| `Verify.ActionAllowed` | apps/mobile/utils/verifyTransaction.ts:120-195 | one action is allowed exactly when permitted and within what is left, and an allowed one spends its own kind from the budget |
| `Verify.AcceptanceIgnoresOrder` | apps/mobile/utils/verifyTransaction.ts:197-256 | two action lists with the same multiset are accepted alike |
| `SettingsSoundness.AcceptedSwap` | apps/mobile/utils/verifyTransaction.ts:120-256 | executing any list accepted with one key to go and at most one named to come turns the signer set S into (S minus old) plus new, and leaves S where the two are one key; it moves no lock, threshold or seed, rewrites no more rules than allowed, and leaves none of them naming the old key |
| `SettingsSoundness.AcceptedMovesNoSigner` | apps/mobile/utils/verifyTransaction.ts:197-256 | executing any list accepted with no keys granted leaves the signers exactly as they were and touches no more rules than granted; where none may be rewritten or dropped it makes exactly as many as granted, as the list wrote them, and every other rule stands |
| `ActionLists.SignersMoved` | packages/smart-account/src/policy.ts:1213-1228 | over any list naming no key both ways, the key set ends less the removed and plus the added |
| `ActionLists.MakesOnlyRules` | apps/mobile/utils/verifyTransaction.ts:197-256 | executing any list that rewrites and drops no rule leaves every rule there was as it was, and files those it makes, as it wrote them, at the seeds the counter passed |
| `ActionLists.TouchesAtMost` | apps/mobile/utils/verifyTransaction.ts:208-256 | executing any list changes, makes or takes away no more rules than it has actions that do |
| `AcceptedChanges.AcceptedRotationKeepsIff` | apps/mobile/utils/verifyTransaction.ts:120-256 | executing any accepted rotation with a key named, the retired one included, keeps a well-formed Account well formed exactly when the key brought in holds every permission and each rule, as left, is the one the builders write for the new keys; the check looks at neither |
| `AcceptedChanges.AcceptedRetirementNeverKeeps` | apps/mobile/hooks/useDeviceRotation.ts:74-79 | a rotation accepted with no new key named leaves the Account ill formed whichever two keys are then taken for its own |
| `AcceptedChanges.AcceptedRecoveryKeepsIff` | apps/mobile/hooks/useRecoveryChange.ts:89-96 | executing any change accepted under the recovery bounds keeps it well formed exactly when the change moves vote-only keys alone and leaves one, or puts back the key it takes out as that key was, and each rule as left is its own |
| `AcceptedRules.AcceptedLimitChangeKeepsIff` | apps/mobile/hooks/useSpendingLimitChange.ts:102-110 | executing any change accepted under the limit walk's bounds, whatever its flags, keeps it well formed exactly when the rule made is a limit of the primary's where there was none or the old one goes, the rule taken away is the limit, and a rule rewritten is of its own shape |
| `AcceptedRules.AcceptedProvisioningKeepsIff` | apps/mobile/hooks/useProvisionAccount.ts:62-68 | executing any change accepted under provisioning's bounds keeps it well formed exactly when there were no rules and the two made are a limit of the primary's and the above-limit rule, in that order |
| `AcceptanceGaps.AcceptanceDoesNotKeep` | apps/mobile/utils/verifyTransaction.ts:120-256 | on every well-formed Account with its above-limit rule, an accepted rotation that lands and leaves it ill formed |
| `AcceptanceGaps.OwnKeyCanBeStripped` | apps/mobile/hooks/useReplacePasskey.ts:55-60 | told to bring in the key it retires, the device accepts, and every well-formed Account executes, a change that leaves its own key there with no permission |
| `AcceptanceGaps.RecoveryAcceptanceDoesNotKeep` | apps/mobile/hooks/useRecoveryChange.ts:89-96 | on every well-formed Account, an accepted recovery change that takes out one of its own two keys and lands |
| `AcceptanceGaps.LimitAcceptanceDoesNotKeep` | apps/mobile/hooks/useSpendingLimitChange.ts:102-110 | on every well-formed Account with its above-limit rule, an accepted limit change that takes that rule away, or gives it to a stranger alone, and lands |
| `AcceptanceGaps.ProvisioningAcceptanceDoesNotKeep` | apps/mobile/hooks/useProvisionAccount.ts:62-68 | on every well-formed Account, an accepted provisioning change that gives both rules to a stranger alone and lands |
| `SettingsAgreement.ProposalReadsBack` | packages/smart-account/src/describe.ts:714-768 | a built proposal with any votes beside it describes as its own actions, votes, index and proposer |
| `SettingsAgreement.BuiltIsRestated` | packages/smart-account/src/describe.ts:808-896 | the description of every built list determines the list: nothing a builder writes is lost in it |
| `SettingsAgreement.BuiltIsAccepted` | apps/mobile/utils/verifyTransaction.ts:197-256 | every change a builder emits is accepted under its own walk's bounds exactly when the step's flags and named key, and provisioning's lock, are the change's own |
| `SettingsAgreement.BuiltMessageIsAccepted` | apps/mobile/utils/verifyTransaction.ts:197-256 | the same from the message's instructions, whoever proposes and pays, at any transaction index, with any votes on it and any compute-budget instructions |
| `Ballots.BallotsReadBack` | packages/smart-account/src/describe.ts:770-790 | any non-empty list of approvals, rejections and executions of one proposal reads back as those votes, in order, on that proposal |
| `Ballots.PassesWhateverExpectedIff` | apps/mobile/utils/verifyTransaction.ts:197-206 | the descriptions accepted for a vault whatever was expected of it are exactly the votes for that vault |
| `Walks.RunWalk` | apps/mobile/hooks/useSpendingLimitChange.ts:58-135 | the loop, for every stream of plans, ends and does what its pass-by-pass specification says |
| `Walks.WalkIsTold` | apps/mobile/hooks/useSpendingLimitChange.ts:58-135 | for every server and signer, event by event: a pass begins on a checked step with the server's own transaction and whoever is first to sign it, each event carries the answer to the one before, the primary is asked exactly where it has a slot, and the walk ends only on a throw or before a step it may not take |
| `Walks.SubmitsTheLastAnswer` | apps/mobile/hooks/useSpendingLimitChange.ts:121-131 | what is submitted is the primary's answer where it was asked, else the approval signer's where it was, else the server's transaction |
| `Walks.SubmitsExactlyOnce` | apps/mobile/hooks/useSpendingLimitChange.ts:105-131 | a pass begun in which no signer throws submits exactly once |
| `Walks.SubmitsAtMost` | apps/mobile/hooks/useProvisionAccount.ts:46-105 | at most the walk's own bound of submissions, however long the server goes on |
| `Walks.EverythingWasChecked` | apps/mobile/hooks/useRecoveryChange.ts:60-131 | everything signed or submitted belongs to a step that was neither done nor waiting, carried a transaction, came within the bound, and whose transaction passed that walk's check first; the approval signer sees that transaction, the primary sees it or what the approval signer returned |
| `Walks.HandsOnlyAcceptedIff` | apps/mobile/hooks/useSpendingLimitChange.ts:105-128 | everything put before a signer was itself accepted, for every server, exactly when the approval signer returns nothing outside the bounds where the primary is asked next: the returned transaction is not read again |
| `WalkSafety.UnreadMessageIsSigned` | apps/mobile/hooks/useSpendingLimitChange.ts:105-128 | on the device as shipped, for every Account and each walk that may ask both: an accepted step, and an approval signer whose answer is outside every bound and is put before the primary |
| `WalkSafety.AcceptedStepMovesNoMoney` | apps/mobile/utils/verifyTransaction.ts:197-256 | an accepted settings message is proposing, voting and compute budget and nothing else, so it moves no money, and proposes at most one action list, for this vault and itself accepted |
| `WalkSafety.ProvisioningMovesNoSigner` | apps/mobile/hooks/useProvisionAccount.ts:62-68 | for every server, what a provisioning run puts before a signer as it was sent, or as an approval signer within bounds returned it, moves no money and proposes nothing that, executed on any Account, moves a signer or the threshold, touches a rule already there, or makes any but two more |
| `WalkSafety.LimitChangeMovesNoKey` | apps/mobile/hooks/useSpendingLimitChange.ts:102-110 | the same for the limit walk: no money, no signer, threshold or lock moves, and one rule at most is made, taken away or rewritten, two only where the step is flagged both ways |
| `WalkSafety.RecoveryMovesOneKeyEachWay` | apps/mobile/hooks/useRecoveryChange.ts:87-96 | the same for the recovery walk: no money moves, at most one key joins and one leaves, at most one rule is rewritten, and threshold, lock and the set of rules stand |
| `WalkSafety.RotationMovesOneKey` | apps/mobile/hooks/useDeviceRotation.ts:48-103 | for every server, what either rotation walk signs moves no money and proposes only the retirement of this Account's own key for the key the step named, or that key out and back where the step named it; a rule may be rewritten to anything that does not name the old key |
| `Listener.ResultListener.HandleMessage` | packages/checkout-core/src/message-listener.ts:54-77 | after settling nothing is forwarded; a settling message detaches the listener |
| `Listener.ResultListener.Poll` | packages/checkout-core/src/message-listener.ts:79-93 | a closed popup settles the listener once, as popup-closed |
| `Listener.Listen` | packages/checkout-core/src/message-listener.ts:42-103 | a listener driven through any sequence of messages, polls and a teardown forwards exactly what the recursive reading of the sequence gives |
| `Listener.SettlesOnce` | packages/checkout-core/src/message-listener.ts:42-103 | over any sequence of messages and polls at most one forwarded item settles, and it is the last |
| `Listener.ResultsAreOwn` | packages/checkout-core/src/message-listener.ts:54-77 | a result is forwarded exactly for a version-1 result or cancel of this origin, reference and nonce |
| `Listener.LossesAreOwn` | packages/checkout-core/src/message-listener.ts:62-93 | an unresolved checkout is heard exactly in a version-1 message giving up on its confirmation, of this origin, reference and nonce; a closed popup is heard only where one is watched |
| `Listener.HandshakeIsOwn` | packages/checkout-core/src/message-listener.ts:58-61 | the handshake is heard exactly from this origin with this nonce |
| `Sheet.CheckoutSheet.Dispatch` | packages/checkout-core/src/index.ts:257-433 | every callback over the closure's variables does its step of the session and keeps its invariant |
| `Sheet.CheckoutSheet.HandleCancel` | packages/checkout-core/src/index.ts:278-295 | the whole state a cancel leaves, with and without a reference, before and after settling |
| `Sheet.CheckoutSheet.GiveUp` | packages/checkout-core/src/index.ts:355-360 | the popup takes over only while the frame timer is armed and nothing has settled |
| `SheetSession.StepKeeps` | packages/checkout-core/src/index.ts:257-433 | every event in every state keeps the session invariant |
| `SheetSession.AtMostOneReport` | packages/checkout-core/src/index.ts:257-433 | in every interleaving at most one of onResult and onUnresolved is ever called, and once |
| `SheetSession.ReportsNameTheIntent` | packages/checkout-core/src/index.ts:405-432 | whatever is reported names the reference the intent was created with; with no intent nothing is reported |
| `SheetSession.ReportsAreOwed` | packages/checkout-core/src/index.ts:268-433 | over every run, what is reported is exactly what was owed: the status in the matching message, Expired for an expired summary, Canceled for a cancel, or the reason no result came |
| `SheetSession.StepLeaves` | packages/checkout-core/src/index.ts:257-433 | every event leaves exactly the sheet, listener, timer, popup, phase and reference stated for it, from the event and the state it met |
| `SheetSession.SheetIsHonest` | packages/checkout-core/src/index.ts:257-433 | in every interleaving a result on screen is the one reported, the sheet cannot be dismissed exactly while the shopper is paying, and an open unsettled sheet always has something loading or listening |
| `SheetSession.ReferenceNeverEmptyIff` | packages/checkout-core/src/index.ts:288-294 | no report is without a reference exactly when the intent is created with one |
| `SheetSession.EarlyCancelReportedOnce` | packages/checkout-core/src/index.ts:405-415 | a cancel before the intent exists is reported once, with the intent's reference, if the intent is ever created, and otherwise never |
| `SheetSession.FallbackAtMostOnce` | packages/checkout-core/src/index.ts:340-382 | the popup fallback runs at most once, and never in a session that has heard the ready handshake |
| `SheetSession.ListenerIsForTheIntent` | packages/checkout-core/src/index.ts:313-330 | the live listener is always for this origin and intent, and the popup's keeps the frame's nonce |
| `Rejection.MissingIsExact` | apps/backend/src/account/account-change.service.ts:181-189 | a prepared rejection names exactly the on-device signers yet to reject, each once, approval first |
| `Rejection.LandingFinishesTheRefusal` | apps/backend/src/account/account-change.service.ts:148-197 | whichever had already rejected, the prepared message lands whole; then both have rejected, as many as the threshold, and nothing is left to prepare |
| `Rejection.PreparedIff` | apps/backend/src/account/account-change.service.ts:148-195 | a rejection is prepared exactly for an Account whose provisioned, open change still misses one of the two |
| `Rejection.PreparedRejectsTheOpenChange` | apps/backend/src/account/account-change.service.ts:148-195 | what is prepared reads, for this Account's own vault, as one reject per on-device signer yet to reject, approval first, on the proposal at the chain's own index |
| `Rejection.RefusedWhy` | apps/backend/src/account/account-change.service.ts:148-195 | each refusal is for its own reason: no Account, nothing open on a provisioned Account, or both already rejected |
| `Rejection.RefusableIff` | apps/backend/src/account/account-change.service.ts:101-114 | an open change on a well-formed Account can be refused exactly while the Account has a lock and a spending limit |
| `Rejection.ProvisioningFollows` | apps/backend/src/account/account-change.service.ts:282-297 | provisioning a new Account leaves its two rules at the seeds the service looks for |
| `Rejection.NoRefusalWithoutLimit` | apps/backend/src/account/account-change.service.ts:282-297 | once the limit is taken off, no rejection can be prepared, whatever is staged |
| `Rejection.RejectionReadsAsVotes` | packages/smart-account/src/policy.ts:166-180 | the device reads a prepared rejection as one reject vote per missing signer on that one proposal |
| `RejectionService.Service.PrepareRejection` | apps/backend/src/account/account-change.service.ts:148-216 | what is refused, what is pinned and what is returned, a call cut off before or after its pin returning nothing |
| `RejectionService.Service.SubmitRejection` | apps/backend/src/account/account-change.service.ts:218-280 | a submission is forwarded exactly when its message is that user's last unexpired pin, and clears the pin only once landed; a call cut off in between returns nothing |
| `RejectionService.ForwardedWasLastPrepared` | apps/backend/src/account/account-change.service.ts:218-262 | over any run of interrupted calls, each forwarded message was pinned for that user within the lifetime, with no later pin and no landing in between |
| `Balance.SelectBalanceHistory` | apps/mobile/utils/balanceHistory.ts:28-73 | the loop's points are the line given by the clamped walk over the newest-first steps |
| `Balance.StepsAreRows` | apps/mobile/utils/balanceHistory.ts:36-96 | the line has a step exactly where a confirmed, dated, valued row has one: down by its worth for a send, up for a receipt, the frozen value first and the priced amount otherwise |
| `Balance.OldestUndoesTheRows` | apps/mobile/utils/balanceHistory.ts:56-71 | undoing every row gives today's value plus all sent less all received, and the line's oldest point is exactly that when no stretch of newest rows received more than there is |
| `Balance.LineAt` | apps/mobile/utils/balanceHistory.ts:56-73 | point by point, oldest first: a millisecond before the oldest row what remains after every undo, at each row the value just after it, and now today's value |
| `Balance.ClosedForm` | apps/mobile/utils/balanceHistory.ts:58-69 | after k undos the value is the larger of the unclamped value and the rise from the highest partial sum so far |
| `Balance.WalkBackUndoesReplay` | apps/mobile/utils/balanceHistory.ts:58-69 | over a complete history that is never overdrawn, the walk back gives every intermediate balance exactly |
| `Balance.NoClampIff` | apps/mobile/utils/balanceHistory.ts:58-69 | the oldest value plus all deltas is today's total exactly when no partial sum exceeds it |
| `Balance.LineIsDrawable` | apps/mobile/utils/balanceHistory.ts:56-73 | all values are non-negative exactly when today's is, and times ascend exactly when no row is dated after now |
| `Money.FormatIsRendering` | apps/mobile/utils/swapQuote.ts:179-190 | for every digit string and number of decimals, with or without a minus sign, the string surgery gives the whole part grouped and the fraction trimmed |
| `Money.RenderingIsDivision` | apps/mobile/utils/swapQuote.ts:179-190 | that rendering is by quotient and remainder at the power of ten |
| `Money.CommasGroup` | apps/mobile/utils/swapQuote.ts:186-188 | placing commas by position from the left is grouping in threes from the right |
| `Money.FormattersAgree` | apps/mobile/utils/spendingLimit.ts:129-138 | at six decimals the limit's formatter is a dollar sign before the quote's formatter |
| `Money.FormatReadsBack` | apps/mobile/utils/spendingLimit.ts:16-24 | formatting, taking out the dollar sign and commas and parsing back is the identity |
| `Money.ReadsTheFloor` | apps/mobile/utils/spendingLimit.ts:16-24 | what is parsed from any accepted text is its decimal value times a million, rounded down |
| `SecondCheck.WarnsAsRouted` | apps/mobile/utils/spendingLimit.ts:68-90 | with no limit or one USDC limit without destinations, a send is warned about exactly when its route takes two signatures, for the matching reason |
| `SecondCheck.SilentIff` | apps/mobile/utils/spendingLimit.ts:68-90 | silent exactly for what is not loaded, is no amount, is another mint's limit, or fits both caps |
| `SecondCheck.CertainIff` | apps/mobile/utils/spendingLimit.ts:68-90 | a warning is certain exactly when it would be given whatever is left of the period |
| `SecondCheck.DestinationsGoUnwarned` | apps/mobile/utils/spendingLimit.ts:68-90 | exactly which sends under one USDC limit take two signatures unwarned: those within both caps to a party off its destination list |
| `Activity.GroupIntoSections` | apps/mobile/utils/activity.ts:144-176 | the sections are the input's days, the first ten characters of each timestamp, newest first, non-empty, each the day's own entries by timestamp and then id, both descending, and end to end they are the stable newest-first sort of everything |
| `Activity.SectionsAreOneSort` | apps/mobile/utils/activity.ts:160-176 | any sections so described concatenate to the one stable sort |
| `Activity.PrefixMonotone` | apps/mobile/utils/activity.ts:151-153 | cutting two strings to one length never swaps their order |
| `Activity.LessIff` | apps/mobile/utils/activity.ts:144-148 | strings compare by the first character in which they part, a shorter one first |
| `Activity.NewestFirstIsOrder` | apps/mobile/utils/activity.ts:144-148 | the comparator is a strict order with ties |
| `Sorting.SortIsStable` | apps/mobile/utils/activity.ts:171 | the sort orders, and keeps ties as they stood |
| `Sorting.StableIsUnique` | apps/mobile/utils/activity.ts:171 | there is one such arrangement |
| `PendingPayments.EveryIndexedPaymentIsBacked` | apps/mobile/utils/pendingPaymentSubmissions.ts:60-109 | over any run of saves, loads and deletes crashing after any write, every indexed payment has stored bytes, when no two payments share a key |
| `PendingPayments.SavedIsLoaded` | apps/mobile/utils/pendingPaymentSubmissions.ts:60-98 | from a completed save, over any run that does not delete the payment and saves it only with bytes, loading gives the payment of the last save that finished with the bytes of the last that began: what was saved together exactly when those two carried one payment |
| `PendingPayments.RunFollows` | apps/mobile/utils/pendingPaymentSubmissions.ts:60-109 | over any run, crashes and all, each payment's entry and bytes are what that payment's own operations make of them, and no other payment's |
| `PendingPayments.EmptyIsNeverLoaded` | apps/mobile/utils/pendingPaymentSubmissions.ts:60-98 | a payment saved with empty bytes is not loaded until it is saved again |
| `PendingPayments.PayloadKeysShared` | apps/mobile/utils/pendingPaymentSubmissions.ts:15-17 | for references without a separator, two payments share a payload key exactly when their users have one sanitized form and their references are equal |
| `PendingPayments.KeysAreTaken` | apps/mobile/utils/storage.ts:6-14 | every key is made of characters the store takes, and an id already made of them is left as it is |
| `PendingPayments.OneFormNeverMeets` | apps/mobile/utils/storage.ts:11-14 | ids that share one leading form and are key-safe after it never share a sanitized form unless they are equal, so one provider's ids never meet |
| `PendingPayments.ApartIff` | apps/mobile/utils/storage.ts:11-14 | over any users and payments with such references, no two share a key exactly when no two users have one sanitized form |
| `PendingPayments.PendingStore.Save` | apps/mobile/utils/pendingPaymentSubmissions.ts:86-98 | the two stores after each number of completed writes |
| `PendingPayments.PendingStore.Load` | apps/mobile/utils/pendingPaymentSubmissions.ts:60-83 | the loop over entries, in any order, returns the complete ones and drops the rest from the index |
| `PendingPayments.PendingStore.Delete` | apps/mobile/utils/pendingPaymentSubmissions.ts:101-109 | the two stores after each number of completed writes |
| `OriginCache.KeysAreRequests` | apps/checkout/functions/_middleware.ts:58-71 | two launches share a cache key exactly when they ask one API the same question, which is when reference and opener are the same, an empty opener being none |
| `OriginCache.LaunchIff` | apps/checkout/functions/_middleware.ts:57-71 | a page is a launch exactly when its intent is `pi_` and 1 to 128 letters, digits, underscores or hyphens |
| `OriginCache.HitsAreAnswers` | apps/checkout/functions/_middleware.ts:92-113 | with launches overlapping in any way, every hit is an answer asked for less than a minute before under this launch's own reference and opener, and answers this very question exactly when it came from this launch's API |
| `OriginCache.CrossApis` | apps/checkout/functions/_middleware.ts:98 | the key does not name the API: a run in which a launch under one API is answered with what any other said |
| `OriginCache.Cache.Store` | apps/checkout/functions/_middleware.ts:110-112 | the whole cache after storing, never over its maximum |
| `OriginCache.Cache.MerchantOriginFor` | apps/checkout/functions/_middleware.ts:92-113 | a fresh entry is returned untouched, a thrown fetch stores nothing, any other answer is stored and returned |

## Left out

- The counter of what is left in a limit's period: routes read it as given, and what becomes of it when an update rewrites the whole policy is not modelled.
- The Squads program itself, its own rejection cutoff and its vote bookkeeping: landing a rejection records the votes, and what the program then decides is not part of this model.
- The SDK's serialisation of Squads arguments, and the compilation and base64 form of messages and transactions.
- The SDK's choice of account order in an above-limit Spend beyond signer and writable grouping: the codec is proved for every account table.
- Lookup tables: a message that needs them is read only when their keys are supplied, which neither device check does.
- Reason strings, summaries, logging, and the sentence a walk shows while waiting.
- The staged-change callbacks of the walks, and the staging calls before them.
- Overlapping submissions by one user on the rejection service: calls are cut off anywhere but run one after another.
- Recovery rows and account events the rejection service updates after a landing.
- A second click while a sheet is open, the plain popup and redirect buttons, focus, theming and rendering.
- The backend's compilation of the change a walk is handed: any plan stands for it.
- Schema validation of indexed payments beyond the reference they are filed under, and JSON as a format.
- Rounding: balance values are reals; numbers that do not parse are absent values.
- In-place sorting of the activity buckets: sections are built from sorted values; nothing else holds the buckets.
- The order of characters outside the Basic Multilingual Plane, which the source compares by code unit; timestamps and identifiers are plain text.
- The header text `withFrameAncestors` writes and the origin syntax `parseOrigin` accepts.
- Picking the best swap route, fetching quotes and assembling swap transactions.
- Recipient lists, selectors and envelope builders: true but easy.
- Walks.RunWalk: one loop stands for the five, whose differences are functions of the walk's kind.
- Effects.StepIsIntended: says when a change lands given that it is approved and its lock has passed; approvals and clocks are the program's.
- Money.FormatUsdcRaw: digit strings only; the source's amounts are unsigned 64-bit integers, and a string that is no integer throws there.
- PendingPayments.ApartIff: takes references without a separator, as the server mints them; the store itself takes any string.
- Rejection.RefusableIff: takes a row that names the limit while there is one and an above-limit rule at its fixed seed, as provisioning leaves them.
