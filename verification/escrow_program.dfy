/** The three instruction handlers. Each validates its accounts, then makes
    its token-program calls in source order; the first failure rejects the
    whole instruction, so a handler either returns the committed state or an
    error and no state at all. */
module EscrowProgram {
  import opened Results
  import opened Addresses
  import opened TokenLedger
  import opened EscrowAccounts

  /** The address the signer seeds `["vault_owner", bump]` let the program
      sign for. */
  function VaultOwnerSigner(bump: u8): Pubkey {
    CreateProgramAddress(VaultOwnerSeeds + [BumpSeed(bump)])
  }

  /** The keys that sign a vault-authority call: the transaction's wallets and
      the program-derived signer of the caller's bump. */
  function VaultCallSigners(signers: set<Pubkey>, bump: u8): set<Pubkey> {
    WalletSigners(signers) + {VaultOwnerSigner(bump)}
  }

  /** `start_escrow`: record the terms, create the vault, deposit `token1Amt`. */
  function StartEscrow(s: State, a: StartAccounts, signers: set<Pubkey>, search: BumpSearch,
                       token1Amt: u64, token2Amt: u64): (r: Result<State, ProgramError>)
    // the mint constraints on the depositor's accounts
    ensures r.Ok? ==>
      && a.initUserToken1 in s.tokens && s.tokens[a.initUserToken1].mint == a.token1Mint
      && a.initUserToken2 in s.tokens && s.tokens[a.initUserToken2].mint == a.token2Mint
    // the vault: canonical address, previously free, now holding the deposit
    ensures r.Ok? ==>
      && a.token1Vault == VaultAddress(a.payer, a.token1Mint, search)
      && !Occupied(s, a.token1Vault)
      && a.token1Vault in r.value.tokens
      && r.value.tokens[a.token1Vault] == TokenAccount(a.token1Mint, VaultAuthority(search), token1Amt)
    // the record: a fresh account holding exactly the inputs
    ensures r.Ok? ==>
      && a.escrowAccount !in s.escrows
      && r.value.escrows.Keys == s.escrows.Keys + {a.escrowAccount}
      && r.value.escrows[a.escrowAccount] ==
           EscrowInfo(a.payer, a.token1Mint, a.token2Mint, a.initUserToken1, a.initUserToken2, token1Amt, token2Amt)
      && forall e :: e in s.escrows ==> r.value.escrows[e] == s.escrows[e]
    // the deposit: signed by the payer, who owns the source account
    ensures r.Ok? ==> Signed(a.payer, signers) && s.tokens[a.initUserToken1].owner == a.payer
    // balances: exactly token1Amt leaves the depositor's account, nothing else moves
    ensures r.Ok? ==>
      && r.value.tokens.Keys == s.tokens.Keys + {a.token1Vault}
      && r.value.tokens[a.initUserToken1].amount == s.tokens[a.initUserToken1].amount - token1Amt
      && r.value.tokens[a.initUserToken1].mint == s.tokens[a.initUserToken1].mint
      && r.value.tokens[a.initUserToken1].owner == s.tokens[a.initUserToken1].owner
      && forall k :: k in s.tokens && k != a.initUserToken1 ==> r.value.tokens[k] == s.tokens[k]
    ensures r.Ok? ==> r.value.mints == s.mints && r.value.closures == s.closures
    // an uncovered deposit rejects the instruction
    ensures a.initUserToken1 in s.tokens && s.tokens[a.initUserToken1].amount < token1Amt ==> r.Err?
  {
    var _ :- ValidateStart(s, a, signers, search);
    var info := EscrowInfo(a.payer, a.token1Mint, a.token2Mint, a.initUserToken1, a.initUserToken2, token1Amt, token2Amt);
    var withVault := InitAccount(s.tokens, a.token1Vault, a.token1Mint, a.vaultOwner);
    var tokens :- Transfer(withVault, TransferUser1ToVault(a), WalletSigners(signers), token1Amt).MapErr(e => Token(e));
    Ok(s.(tokens := tokens, escrows := s.escrows[a.escrowAccount := info]))
  }

  /** `cancel_escrow`: refund the record's token-1 amount from the given vault
      to the given token-1 account, then close the vault into the payer. */
  function CancelEscrow(s: State, a: CancelAccounts, signers: set<Pubkey>, bump: u8): (r: Result<State, ProgramError>)
    // the record is read, never written
    ensures r.Ok? ==> a.escrowAccount in s.escrows && r.value.escrows == s.escrows
    // both vault calls are authorised by the supplied vault owner, which must
    // own the vault and sign as a wallet or through the caller's bump
    ensures r.Ok? ==>
      && a.token1Vault in s.tokens
      && s.tokens[a.token1Vault].owner == a.vaultOwner
      && a.vaultOwner in VaultCallSigners(signers, bump)
    // the vault held exactly the record's amount and is now closed into the payer
    ensures r.Ok? ==>
      && s.tokens[a.token1Vault].amount == s.escrows[a.escrowAccount].token1Amt
      && r.value.tokens.Keys == s.tokens.Keys - {a.token1Vault}
      && r.value.closures == s.closures + [Closure(a.token1Vault, a.payer)]
    // the refund lands in the supplied token-1 account; nothing else moves
    ensures r.Ok? && a.initUserToken1 != a.token1Vault ==>
      && a.initUserToken1 in r.value.tokens
      && r.value.tokens[a.initUserToken1].amount
           == s.tokens[a.initUserToken1].amount + s.escrows[a.escrowAccount].token1Amt
      && s.tokens[a.initUserToken1].mint == s.tokens[a.token1Vault].mint
    ensures r.Ok? ==>
      forall k :: k in r.value.tokens && k != a.initUserToken1 ==> r.value.tokens[k] == s.tokens[k]
    ensures r.Ok? ==> r.value.mints == s.mints
    // a vault that does not exist cannot be cancelled
    ensures a.token1Vault !in s.tokens ==> r.Err?
  {
    var _ :- ValidateCancel(s, a, signers);
    var info := s.escrows[a.escrowAccount];
    var vaultSigners := VaultCallSigners(signers, bump);
    var refunded :- Transfer(s.tokens, TransferVaultToUser1(a), vaultSigners, info.token1Amt).MapErr(e => Token(e));
    var closed :- CloseAccount(refunded, CancelCloseVault(a), vaultSigners).MapErr(e => Token(e));
    Ok(s.(tokens := closed, closures := s.closures + [Closure(a.token1Vault, a.payer)]))
  }

  /** The four token accounts the two legs of an exchange touch are distinct. */
  predicate LegsDisjoint(a: ExchangeAccounts) {
    && a.user2Token2 != a.initUserToken2
    && a.token1Vault != a.user2Token1
    && a.user2Token2 != a.token1Vault && a.user2Token2 != a.user2Token1
    && a.initUserToken2 != a.token1Vault && a.initUserToken2 != a.user2Token1
  }

  /** `exchange`: pay the record's token-2 amount to the given token-2 account,
      deliver the record's token-1 amount from the vault, close the vault. */
  function Exchange(s: State, a: ExchangeAccounts, signers: set<Pubkey>, bump: u8): (r: Result<State, ProgramError>)
    // the price constraint and the counterparty's mint constraints
    ensures r.Ok? ==>
      && a.escrowAccount in s.escrows
      && a.user2Token1 in s.tokens && a.user2Token2 in s.tokens
      && s.escrows[a.escrowAccount].token2Amt <= s.tokens[a.user2Token2].amount
      && s.tokens[a.user2Token1].mint == s.escrows[a.escrowAccount].token1Mint
      && s.tokens[a.user2Token2].mint == s.escrows[a.escrowAccount].token2Mint
    ensures r.Ok? ==> r.value.escrows == s.escrows && r.value.mints == s.mints
    // the payment is signed by the payer; the delivery and the close by the vault owner
    ensures r.Ok? ==>
      && s.tokens[a.user2Token2].owner == a.payer
      && a.token1Vault in s.tokens
      && s.tokens[a.token1Vault].owner == a.vaultOwner
      && a.vaultOwner in VaultCallSigners(signers, bump)
    ensures r.Ok? ==>
      && r.value.tokens.Keys == s.tokens.Keys - {a.token1Vault}
      && r.value.closures == s.closures + [Closure(a.token1Vault, a.payer)]
    // with distinct accounts: each side is credited its amount, and nothing else moves
    ensures r.Ok? && LegsDisjoint(a) ==>
      var info := s.escrows[a.escrowAccount];
      && a.initUserToken2 in s.tokens
      && r.value.tokens[a.initUserToken2].amount == s.tokens[a.initUserToken2].amount + info.token2Amt
      && r.value.tokens[a.user2Token2].amount == s.tokens[a.user2Token2].amount - info.token2Amt
      && r.value.tokens[a.user2Token1].amount == s.tokens[a.user2Token1].amount + info.token1Amt
      && s.tokens[a.token1Vault].amount == info.token1Amt
    ensures r.Ok? ==>
      forall k :: k in r.value.tokens && k != a.initUserToken2 && k != a.user2Token2 && k != a.user2Token1
        ==> r.value.tokens[k] == s.tokens[k]
    ensures a.token1Vault !in s.tokens ==> r.Err?
  {
    var _ :- ValidateExchange(s, a, signers);
    var info := s.escrows[a.escrowAccount];
    var paid :- Transfer(s.tokens, TransferUser2ToUser1(a), WalletSigners(signers), info.token2Amt).MapErr(e => Token(e));
    var vaultSigners := VaultCallSigners(signers, bump);
    var delivered :- Transfer(paid, TransferVaultToUser2(a), vaultSigners, info.token1Amt).MapErr(e => Token(e));
    var closed :- CloseAccount(delivered, ExchangeCloseVault(a), vaultSigners).MapErr(e => Token(e));
    Ok(s.(tokens := closed, closures := s.closures + [Closure(a.token1Vault, a.payer)]))
  }
}
