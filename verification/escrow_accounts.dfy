/** The escrow record, the chain state the program sees, and the account
    lists and constraints of the three instructions, in the order the
    account structs declare them. */
module EscrowAccounts {
  import opened Results
  import opened Addresses
  import opened TokenLedger

  /** The persistent record of one escrow's terms. */
  datatype EscrowInfo = EscrowInfo(
    initUser: Pubkey,
    token1Mint: Pubkey,
    token2Mint: Pubkey,
    initUserToken1: Pubkey,
    initUserToken2: Pubkey,
    token1Amt: u64,
    token2Amt: u64)

  /** Serialized widths: the account discriminator, a public key, a u64. */
  const DiscriminatorLen: nat := 8
  const PubkeyLen: nat := 32
  const U64Len: nat := 8

  /** The space the program allocates for a record. */
  const EscrowSpace: nat := 8 + 8 + 8 + (6 * 32)

  /** Length of a record's fields in the fixed-width encoding: five keys and
      two amounts. The allocation holds them behind the discriminator, with
      one key's worth of bytes to spare. */
  function EncodedLen(info: EscrowInfo): (n: nat)
    ensures DiscriminatorLen + n <= EscrowSpace
    ensures EscrowSpace - (DiscriminatorLen + n) == PubkeyLen
  {
    var keys := [info.initUser, info.token1Mint, info.token2Mint, info.initUserToken1, info.initUserToken2];
    var amounts := [info.token1Amt, info.token2Amt];
    |keys| * PubkeyLen + |amounts| * U64Len
  }

  /** A token account was closed and its rent credited to `destination`. */
  datatype Closure = Closure(account: Pubkey, destination: Pubkey)

  /** What the program can observe and change: token accounts, mints, escrow
      records, and the log of closed accounts with who received their rent. */
  datatype State = State(
    tokens: Ledger,
    mints: set<Pubkey>,
    escrows: map<Pubkey, EscrowInfo>,
    closures: seq<Closure>)

  /** Some account already lives at `k`. */
  predicate Occupied(s: State, k: Pubkey) {
    k in s.tokens || k in s.mints || k in s.escrows
  }

  /** `k` signed the transaction. */
  predicate Signed(k: Pubkey, signers: set<Pubkey>) {
    k in WalletSigners(signers)
  }

  /** Seeds of a depositor's vault for one mint. */
  function VaultSeeds(payer: Pubkey, mint: Pubkey): seq<Seed> {
    [Literal("token1_vault"), KeySeed(payer), KeySeed(mint)]
  }

  /** Seeds of the one authority that owns every vault. */
  const VaultOwnerSeeds: seq<Seed> := [Literal("vault_owner")]

  /** The canonical vault address for a depositor and mint. */
  function VaultAddress(payer: Pubkey, mint: Pubkey, search: BumpSearch): Pubkey {
    FindProgramAddress(VaultSeeds(payer, mint), search).0
  }

  /** The canonical vault authority. */
  function VaultAuthority(search: BumpSearch): Pubkey {
    FindProgramAddress(VaultOwnerSeeds, search).0
  }

  /** Vaults never collide: distinct (depositor, mint) pairs have distinct
      vault addresses, and no vault sits at the vault authority's address. */
  lemma VaultAddressInjective(p1: Pubkey, m1: Pubkey, p2: Pubkey, m2: Pubkey, search: BumpSearch)
    ensures VaultAddress(p1, m1, search) == VaultAddress(p2, m2, search) <==> p1 == p2 && m1 == m2
    ensures VaultAddress(p1, m1, search) != VaultAuthority(search)
  {
    var s1 := VaultSeeds(p1, m1) + [BumpSeed(search(VaultSeeds(p1, m1)))];
    var s2 := VaultSeeds(p2, m2) + [BumpSeed(search(VaultSeeds(p2, m2)))];
    if VaultAddress(p1, m1, search) == VaultAddress(p2, m2, search) {
      assert s1 == s2;
      assert s1[1] == s2[1] && s1[2] == s2[2];
    }
    var authority := VaultOwnerSeeds + [BumpSeed(search(VaultOwnerSeeds))];
    assert |s1| != |authority|;
  }

  /** Errors the program reports before its handler runs, plus the token
      program's errors passed through. */
  datatype ProgramError =
    | AccountNotSigner
    | AccountNotInitialized
    | AccountInUse
    | ConstraintRaw
    | ConstraintSeeds
    | Token(err: TokenError)

  // ---- StartEscrow ----

  datatype StartAccounts = StartAccounts(
    payer: Pubkey,
    escrowAccount: Pubkey,
    token1Mint: Pubkey,
    token2Mint: Pubkey,
    initUserToken1: Pubkey,
    initUserToken2: Pubkey,
    token1Vault: Pubkey,
    vaultOwner: Pubkey)

  /** The account checks of `start_escrow`. The record and the vault are
      allocated here, so their addresses must be free; the record is a fresh
      key pair and must sign its own allocation. */
  function ValidateStart(s: State, a: StartAccounts, signers: set<Pubkey>, search: BumpSearch): (c: Result<(), ProgramError>)
    ensures c.Ok? <==>
      && Signed(a.payer, signers)
      && !Occupied(s, a.escrowAccount) && Signed(a.escrowAccount, signers)
      && a.token1Mint in s.mints && a.token2Mint in s.mints
      && a.initUserToken1 in s.tokens && s.tokens[a.initUserToken1].mint == a.token1Mint
      && a.initUserToken2 in s.tokens && s.tokens[a.initUserToken2].mint == a.token2Mint
      && a.token1Vault == VaultAddress(a.payer, a.token1Mint, search) && !Occupied(s, a.token1Vault)
      && a.vaultOwner == VaultAuthority(search)
  {
    var _ :- Need(Signed(a.payer, signers), AccountNotSigner);
    var _ :- Need(!Occupied(s, a.escrowAccount), AccountInUse);
    var _ :- Need(Signed(a.escrowAccount, signers), AccountNotSigner);
    var _ :- Need(a.token1Mint in s.mints && a.token2Mint in s.mints, AccountNotInitialized);
    var _ :- Need(a.initUserToken1 in s.tokens, AccountNotInitialized);
    var _ :- Need(s.tokens[a.initUserToken1].mint == a.token1Mint, ConstraintRaw);
    var _ :- Need(a.initUserToken2 in s.tokens, AccountNotInitialized);
    var _ :- Need(s.tokens[a.initUserToken2].mint == a.token2Mint, ConstraintRaw);
    var _ :- Need(a.token1Vault == VaultAddress(a.payer, a.token1Mint, search), ConstraintSeeds);
    var _ :- Need(!Occupied(s, a.token1Vault), AccountInUse);
    var _ :- Need(a.vaultOwner == VaultAuthority(search), ConstraintSeeds);
    Ok(())
  }

  /** The deposit: depositor's token-1 account into the vault, signed by the payer. */
  function TransferUser1ToVault(a: StartAccounts): TransferAccounts {
    TransferAccounts(a.initUserToken1, a.token1Vault, a.payer)
  }

  // ---- CancelEscrow ----

  datatype CancelAccounts = CancelAccounts(
    payer: Pubkey,
    escrowAccount: Pubkey,
    initUserToken1: Pubkey,
    token1Vault: Pubkey,
    vaultOwner: Pubkey)

  /** The account checks of `cancel_escrow`: each account must exist with
      the right type, and nothing is compared with the record. */
  function ValidateCancel(s: State, a: CancelAccounts, signers: set<Pubkey>): (c: Result<(), ProgramError>)
    ensures c.Ok? <==>
      && Signed(a.payer, signers)
      && a.escrowAccount in s.escrows
      && a.initUserToken1 in s.tokens && a.token1Vault in s.tokens
  {
    var _ :- Need(Signed(a.payer, signers), AccountNotSigner);
    var _ :- Need(a.escrowAccount in s.escrows, AccountNotInitialized);
    var _ :- Need(a.initUserToken1 in s.tokens, AccountNotInitialized);
    var _ :- Need(a.token1Vault in s.tokens, AccountNotInitialized);
    Ok(())
  }

  /** The refund: vault into the given token-1 account, signed by the vault authority. */
  function TransferVaultToUser1(a: CancelAccounts): TransferAccounts {
    TransferAccounts(a.token1Vault, a.initUserToken1, a.vaultOwner)
  }

  /** Closing the vault after a cancel: rent to the payer, signed by the vault authority. */
  function CancelCloseVault(a: CancelAccounts): CloseAccounts {
    CloseAccounts(a.token1Vault, a.payer, a.vaultOwner)
  }

  // ---- Exchange ----

  datatype ExchangeAccounts = ExchangeAccounts(
    payer: Pubkey,
    escrowAccount: Pubkey,
    initUserToken1: Pubkey,
    initUserToken2: Pubkey,
    user2Token1: Pubkey,
    user2Token2: Pubkey,
    token1Vault: Pubkey,
    vaultOwner: Pubkey)

  /** The account checks of `exchange`: every account must exist; the
      counterparty's token-2 balance must cover the price, and the
      counterparty's accounts must hold the record's mints. */
  function ValidateExchange(s: State, a: ExchangeAccounts, signers: set<Pubkey>): (c: Result<(), ProgramError>)
    ensures c.Ok? <==>
      && Signed(a.payer, signers)
      && a.escrowAccount in s.escrows
      && a.initUserToken1 in s.tokens && a.initUserToken2 in s.tokens
      && a.user2Token1 in s.tokens && a.user2Token2 in s.tokens && a.token1Vault in s.tokens
      && s.escrows[a.escrowAccount].token2Amt <= s.tokens[a.user2Token2].amount
      && s.tokens[a.user2Token1].mint == s.escrows[a.escrowAccount].token1Mint
      && s.tokens[a.user2Token2].mint == s.escrows[a.escrowAccount].token2Mint
  {
    var _ :- Need(Signed(a.payer, signers), AccountNotSigner);
    var _ :- Need(a.escrowAccount in s.escrows, AccountNotInitialized);
    var _ :- Need(a.initUserToken1 in s.tokens && a.initUserToken2 in s.tokens, AccountNotInitialized);
    var _ :- Need(a.user2Token1 in s.tokens && a.user2Token2 in s.tokens, AccountNotInitialized);
    var _ :- Need(a.token1Vault in s.tokens, AccountNotInitialized);
    var info := s.escrows[a.escrowAccount];
    var _ :- Need(info.token2Amt <= s.tokens[a.user2Token2].amount, ConstraintRaw);
    var _ :- Need(s.tokens[a.user2Token1].mint == info.token1Mint, ConstraintRaw);
    var _ :- Need(s.tokens[a.user2Token2].mint == info.token2Mint, ConstraintRaw);
    Ok(())
  }

  /** The payment leg: counterparty's token-2 account into the given token-2
      account, signed by the payer. */
  function TransferUser2ToUser1(a: ExchangeAccounts): TransferAccounts {
    TransferAccounts(a.user2Token2, a.initUserToken2, a.payer)
  }

  /** The delivery leg: vault into the counterparty's token-1 account, signed
      by the vault authority. */
  function TransferVaultToUser2(a: ExchangeAccounts): TransferAccounts {
    TransferAccounts(a.token1Vault, a.user2Token1, a.vaultOwner)
  }

  /** Closing the vault after an exchange: rent to the payer, signed by the vault authority. */
  function ExchangeCloseVault(a: ExchangeAccounts): CloseAccounts {
    CloseAccounts(a.token1Vault, a.payer, a.vaultOwner)
  }
}
