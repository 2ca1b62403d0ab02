/**
 * What travels: instructions, the Squads arguments they carry, and the actions
 * of a settings change.
 *
 * The SDK writes and reads the Squads arguments itself, so they appear here
 * already decoded. Every other program's data is bytes.
 */
module Squads {
  import opened Keys

  type byte = b: int | 0 <= b < 256

  type Mask = bv8
  const INITIATE: Mask := 1
  const VOTE: Mask := 2
  const EXECUTE: Mask := 4
  const ALL_PERMISSIONS: Mask := 7

  predicate Has(mask: Mask, permission: Mask) {
    mask & permission == permission
  }

  const PRIMARY_ACCOUNT_INDEX: nat := 0

  datatype Signer = Signer(key: Key, mask: Mask)

  datatype Period = OneTime | Daily | Weekly | Monthly | Custom

  /** Every period but the one this package never writes. */
  type LimitPeriod = p: Period | !p.Custom? witness Daily

  datatype Constraint = Constraint(programId: Key, accountRules: nat, dataRules: nat)

  datatype Payload =
    | SpendingLimitPayload(
        mint: Key,
        sourceAccountIndex: nat,
        start: nat,
        period: Period,
        accumulateUnused: bool,
        maxPerPeriod: nat,
        maxPerUse: nat,
        enforceExactQuantity: bool,
        destinations: seq<Key>)
    | ProgramInteractionPayload(accountIndex: nat, constraints: seq<Constraint>)
    | OtherPayload(name: string)

  datatype SettingsAction =
    | AddSigner(newSigner: Signer)
    | RemoveSigner(oldSigner: Key)
    | SetTimeLock(newTimeLock: nat)
    | ChangeThreshold(newThreshold: nat)
    | PolicyCreate(seed: nat, creation: Payload, createSigners: seq<Signer>, createThreshold: nat, createTimeLock: nat)
    | PolicyUpdate(policy: Key, update: Payload, updateSigners: seq<Signer>, updateThreshold: nat, updateTimeLock: nat)
    | PolicyRemove(removed: Key)
    | OtherAction(actionName: string)

  datatype TransactionPayload =
    | SyncTransaction(accountIndex: nat, instructions: seq<byte>)
    | AsyncTransaction

  datatype PolicyPayload =
    | SpendUnderLimit(amount: nat, destination: Key, decimals: nat)
    | Interaction(constraintIndices: seq<nat>, transaction: TransactionPayload)
    | OtherPolicyPayload(name: string)

  datatype SyncPayload = RawTransaction | UnderPolicy(payload: PolicyPayload)

  datatype SquadsArgs =
    | CreateSettingsTransaction(actions: seq<SettingsAction>)
    | CreateProposal(transactionIndex: nat)
    | ApproveProposal
    | RejectProposal
    | ExecuteSettingsTransaction
    | ExecuteTransactionSyncV2(accountIndex: nat, numSigners: nat, payload: SyncPayload)
    | OtherArgs

  datatype Data = Bytes(bytes: seq<byte>) | Args(args: SquadsArgs)

  datatype Instruction = Instruction(programId: Key, accounts: seq<Key>, data: Data)
}
