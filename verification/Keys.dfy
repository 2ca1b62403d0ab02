/**
 * Public keys, with every derived address as a free constructor.
 *
 * Address derivation is a hash in the program; here two derived addresses are
 * equal exactly when they were derived from the same things.
 */
module Keys {
  datatype Key =
    | Wallet(id: nat)
    | SystemProgram
    | TokenProgram
    | Token2022Program
    | AssociatedTokenProgram
    | ComputeBudgetProgram
    | SquadsProgram
    | Settings(seed: nat)
    | Vault(settings: Key)
    | PolicyAddress(settings: Key, policySeed: nat)
    | TransactionAddress(settings: Key, index: nat)
    | ProposalAddress(settings: Key, index: nat)
    | TokenAccount(owner: Key, mint: Key, tokenProgram: Key)

  /** The all-zero key: the System program's id, and the mint that means SOL. */
  const NATIVE_MINT := SystemProgram

  const ABOVE_LIMIT_PROGRAM_ALLOWLIST: seq<Key> :=
    [SystemProgram, TokenProgram, Token2022Program, AssociatedTokenProgram, ComputeBudgetProgram]

  datatype Addresses = Addresses(settings: Key, vault: Key)

  function DeriveAddresses(settingsSeed: nat): Addresses {
    Addresses(Settings(settingsSeed), Vault(Settings(settingsSeed)))
  }

  predicate IsTokenProgram(k: Key) {
    k == TokenProgram || k == Token2022Program
  }
}
