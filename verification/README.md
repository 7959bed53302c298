# Escrow program model

A Dafny model of `my_escrow`, an Anchor program on Solana. It implements a
two-token escrow. `start_escrow` records the terms of an offer in an
`EscrowInfo` account. It creates a vault token account owned by a
program-derived authority (`vault_owner`) and moves `token1_amt` into it.
`cancel_escrow` sends the vault's tokens back and closes the vault.
`exchange` makes the counterparty pay `token2_amt`, delivers the vault's tokens
to the counterparty, and closes the vault.

The model is functional. The chain state is an immutable value:
- a token ledger, `map<Pubkey, TokenAccount>`;
- the set of mints;
- the escrow records;
- a log of closed accounts and who received their rent.

Each instruction is a function `State -> Result<State, ProgramError>`. It
validates its accounts in the order the account structs declare them. It then
makes its token-program calls in source order, and the first failure rejects
the whole instruction.

Modules:
- `Results`: the `Result`/`Check` types used with `:-`.
- `Addresses`: keys and program-derived addresses. Derivation is an injective
  constructor, and a derived address can never sign a transaction. The
  canonical bump search is a parameter (`BumpSearch`).
- `TokenLedger`: the SPL Token calls the program makes (`transfer`,
  `close_account`, account initialisation). It also defines the total of a
  mint over all accounts, and proves that each call conserves it.
- `EscrowAccounts` (account.rs): `EscrowInfo`, its space, the chain `State`,
  the three account lists with their constraints, and the from/to/authority
  wiring of every token call.
- `EscrowProgram` (lib.rs): the three handlers.
- `EscrowProperties`: lemmas that relate instructions to each other.

The code performs fewer checks than a hardened escrow would, and the model
keeps exactly the checks the code makes:
- `cancel_escrow` compares neither the payer, the refund account nor the vault
  with the record.
- `exchange` compares neither the token-2 destination nor the vault with the
  record.
- No handler deletes the record.

`StrangerCancels` and `ExchangeToOwnAccount` show what the missing checks
allow. Single use holds per vault, not per record: a closed vault makes every
later cancel or exchange naming it fail, but the record survives and can be
named again with another vault owned by the vault authority
(`RecordCancelledTwice`).

## Model

| member | source | states |
|---|---|---|
| EscrowAccounts.EncodedLen | programs/my_escrow/src/account.rs:4-20 | The five keys and two u64 amounts of a record fit in the 216 allocated bytes behind the 8-byte discriminator, with exactly one key's worth of bytes to spare |
| EscrowAccounts.VaultAddressInjective | programs/my_escrow/src/account.rs:33-40 | Two vault addresses coincide exactly when their payers and token-1 mints coincide, and no vault address equals the vault authority's address |
| EscrowAccounts.ValidateStart | programs/my_escrow/src/account.rs:15-47 | The start constraints pass exactly when the payer and the new record sign, the record address is free, both mints exist, the depositor's token-1 and token-2 accounts exist and hold those mints, the vault is at the canonical address for (payer, token-1 mint) and free, and the vault owner is the canonical vault authority |
| EscrowAccounts.ValidateCancel | programs/my_escrow/src/account.rs:49-71 | The cancel constraints pass exactly when the payer signs and the record, refund account and vault exist; nothing is compared with the record |
| EscrowAccounts.ValidateExchange | programs/my_escrow/src/account.rs:73-105 | The exchange constraints pass exactly when the payer signs, the record and all five token accounts exist, the record's token-2 amount is at most the counterparty's token-2 balance, and the counterparty's accounts hold the record's two mints |
| EscrowProgram.StartEscrow | programs/my_escrow/src/lib.rs:13-29 | On success: both depositor accounts hold the declared mints; the vault sits at the canonical address for (payer, token1 mint), was free, and holds `token1_amt` of token 1 under the canonical vault authority; the new record equals the inputs field by field and no other record changes; the payer signed and owns the source; the source loses exactly `token1_amt` and no other balance changes. A balance below `token1_amt` always fails |
| EscrowProgram.CancelEscrow | programs/my_escrow/src/lib.rs:31-44 | On success: the record is unchanged; the supplied vault owner owns the vault and signed through the wallet or the caller's bump; the vault held exactly the record's token-1 amount, is now closed, and its rent is logged to the payer; the refund account gains that amount and nothing else changes. A missing vault fails |
| EscrowProgram.Exchange | programs/my_escrow/src/lib.rs:46-72 | On success: the record's `token2_amt` is covered by the counterparty's token-2 balance; the counterparty's accounts hold the record's mints; the payer owns the paying account; the vault owner owns the vault and signed; the vault is closed into the payer; the record is unchanged. With distinct accounts, the token-2 destination gains `token2_amt`, the counterparty pays it and gains `token1_amt`, and the vault held exactly `token1_amt`. Accounts outside the two legs do not change |
| EscrowProperties.StartSucceedsIff | programs/my_escrow/src/account.rs:15-47 | `start_escrow` succeeds if and only if an independently written list of conditions holds: signatures, free addresses, existing mints, matching mints, canonical vault and authority addresses, ownership, and sufficient balance |
| EscrowProperties.StartTwiceFails | programs/my_escrow/src/account.rs:33-36 | After a successful start, a second start by the same payer on the same token-1 mint fails |
| EscrowProperties.OneVaultAuthority | programs/my_escrow/src/account.rs:39-40 | Any two vaults created by any two successful starts have the same owner, the address derived from the single seed "vault_owner" |
| EscrowProperties.StartThenCancelRestores | programs/my_escrow/src/lib.rs:18-42 | Cancelling a just-opened escrow with the same token-1 account, vault and vault owner and the canonical bump succeeds for any signer. It restores the token ledger exactly, including the depositor's balance, leaves the vault closed, and logs the rent to the canceller |
| EscrowProperties.StartThenExchange | programs/my_escrow/src/lib.rs:46-72 | On a just-opened escrow, a signing counterparty whose accounts hold the record's mints, cover the price and are not the depositor's can exchange with the canonical bump, if no destination overflows. The depositor's token-2 account gains `token2_amt`, the counterparty pays it and gains `token1_amt`, and the vault is closed into the counterparty |
| EscrowProperties.WrongBumpFails | programs/my_escrow/src/lib.rs:31-48 | Cancel and exchange on a vault owned by the canonical authority fail for every bump other than the canonical one |
| EscrowProperties.ExchangePaymentFirst | programs/my_escrow/src/lib.rs:49-68 | If the accounts validate but the counterparty's token-2 payment fails, the exchange fails with that payment's error, before the vault leg |
| EscrowProperties.VaultConsumedOnce | programs/my_escrow/src/lib.rs:41-70 | After a successful cancel or exchange, every later cancel or exchange naming the same vault fails |
| EscrowProperties.RecordCancelledTwice | programs/my_escrow/src/account.rs:54-60 | A concrete state in which one record is cancelled twice, against two different vaults owned by the vault authority, refunding its amount both times and leaving the record in place |
| EscrowProperties.StartConserves | programs/my_escrow/src/lib.rs:26-27 | A successful start leaves the total of every mint over all token accounts unchanged |
| EscrowProperties.CancelConserves | programs/my_escrow/src/lib.rs:34-42 | A successful cancel leaves the total of every mint unchanged |
| EscrowProperties.ExchangeConserves | programs/my_escrow/src/lib.rs:49-70 | A successful exchange leaves the total of every mint unchanged |
| EscrowProperties.ExchangeToOwnAccount | programs/my_escrow/src/account.rs:84-85 | A counterparty who names its own token-2 account as the payment destination keeps its token-2 balance and still gains the vault's token-1 amount |
| EscrowProperties.StrangerCancels | programs/my_escrow/src/account.rs:49-64 | A concrete state in which a signer other than the depositor cancels the depositor's escrow into its own token-1 account and receives the deposit |
| TokenLedger.Transfer | programs/my_escrow/src/lib.rs:27 | A token transfer succeeds exactly when both accounts exist, the source covers the amount, the mints match, the authority owns the source and signed, and the destination cannot overflow u64. It then debits the source, credits the destination, and changes nothing else; a transfer to the source itself changes nothing |
| TokenLedger.CloseAccount | programs/my_escrow/src/lib.rs:42 | Closing succeeds exactly when the account exists, is empty, differs from the destination, and its owner signed. It then removes only that account |
| TokenLedger.InitAccount | programs/my_escrow/src/account.rs:33-35 | A new vault is an empty account of the given mint and authority; every existing account is kept |
| TokenLedger.TransferConserves | programs/my_escrow/src/lib.rs:50-68 | A successful transfer leaves the total of every mint unchanged |
| Addresses.BumpDetermines | programs/my_escrow/src/lib.rs:33 | Signer seeds that differ only in the bump derive different addresses |
| Addresses.DeriveInjective | programs/my_escrow/src/account.rs:34 | Distinct seed lists derive distinct addresses |

## Left out

- Solana and Anchor plumbing is not modelled: CPI context construction, `Program` and `Sysvar` accounts, rent, and lamports. The rent returned by a close is a log entry naming the account and the destination.
- Creating an account at an address already used by a plain lamport-holding account, such as the payer's own address, is not refused, because system accounts are not tracked.
- Hashing and the bump search are not modelled. Derivation is an injective constructor, and the canonical bump is a parameter of the instructions that need it.
- Signer seeds are assumed valid for every bump. On Solana, `with_signer` rejects the whole call when `["vault_owner", bump]` lands on the curve, so a cancel or exchange whose vault owner is a signing wallet, combined with such a bump, fails there but can succeed in the model.
- The program id is left implicit, because only this program derives addresses.
- SPL Token features the program never uses are left out: delegates, close authorities, frozen accounts, native SOL accounts and multisig owners.
- Closing a non-empty token account fails, as the token program requires. The model includes this check, so mint totals are conserved unconditionally.
- Account (de)serialization and the discriminator bytes are not modelled. Only the space bound is.
- Concurrency is not modelled: the runtime serialises conflicting transactions, so instructions are sequential atomic steps.
- The order of the account checks follows the field order of the account structs. It decides only which error is reported, never whether the instruction fails.
- Rejection is modelled as a returned error with no resulting state. Anchor's error codes are collapsed into a few kinds.
- EscrowProgram.Exchange: balance changes are stated only when the four token accounts of the two legs are distinct. When accounts alias, only mint conservation and the unchanged accounts outside the legs are stated.
- tests/my_escrow.ts calls an `initialize` instruction the program does not have, and asserts nothing, so it is not modelled.
