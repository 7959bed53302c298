/** Properties that relate several instructions, or an instruction and an
    independent statement of when it may succeed. */
module EscrowProperties {
  import opened Results
  import opened Addresses
  import opened TokenLedger
  import opened EscrowAccounts
  import opened EscrowProgram

  /** When `start_escrow` may succeed, stated from the depositor's side: the
      payer and the new record sign, the record and vault addresses are free,
      both mints exist, the depositor's accounts hold those mints, the vault
      and its authority sit at their canonical addresses, and the payer owns
      and can cover the deposit. */
  ghost predicate StartAdmissible(s: State, a: StartAccounts, signers: set<Pubkey>, search: BumpSearch, token1Amt: u64) {
    && a.payer.Wallet? && a.payer in signers
    && a.escrowAccount.Wallet? && a.escrowAccount in signers
    && a.escrowAccount !in s.tokens && a.escrowAccount !in s.mints && a.escrowAccount !in s.escrows
    && a.token1Mint in s.mints && a.token2Mint in s.mints
    && a.initUserToken1 in s.tokens && s.tokens[a.initUserToken1].mint == a.token1Mint
    && a.initUserToken2 in s.tokens && s.tokens[a.initUserToken2].mint == a.token2Mint
    && a.token1Vault == CreateProgramAddress(VaultSeeds(a.payer, a.token1Mint) + [BumpSeed(search(VaultSeeds(a.payer, a.token1Mint)))])
    && a.token1Vault !in s.tokens && a.token1Vault !in s.mints && a.token1Vault !in s.escrows
    && a.vaultOwner == CreateProgramAddress(VaultOwnerSeeds + [BumpSeed(search(VaultOwnerSeeds))])
    && s.tokens[a.initUserToken1].owner == a.payer
    && token1Amt <= s.tokens[a.initUserToken1].amount
  }

  /** `start_escrow` succeeds exactly when it is admissible. */
  lemma StartSucceedsIff(s: State, a: StartAccounts, signers: set<Pubkey>, search: BumpSearch, token1Amt: u64, token2Amt: u64)
    ensures StartEscrow(s, a, signers, search, token1Amt, token2Amt).Ok?
            <==> StartAdmissible(s, a, signers, search, token1Amt)
  {
    if StartAdmissible(s, a, signers, search, token1Amt) {
      var withVault := InitAccount(s.tokens, a.token1Vault, a.token1Mint, a.vaultOwner);
      assert Transfer(withVault, TransferUser1ToVault(a), WalletSigners(signers), token1Amt).Ok?;
    }
  }

  /** While a depositor's vault for a mint exists, the same depositor cannot
      open a second escrow on that mint. */
  lemma StartTwiceFails(s: State, a: StartAccounts, a': StartAccounts, signers: set<Pubkey>, signers': set<Pubkey>,
                        search: BumpSearch, t1: u64, t2: u64, t1': u64, t2': u64)
    requires StartEscrow(s, a, signers, search, t1, t2).Ok?
    requires a'.payer == a.payer && a'.token1Mint == a.token1Mint
    ensures StartEscrow(StartEscrow(s, a, signers, search, t1, t2).value, a', signers', search, t1', t2').Err?
  {
  }

  /** Every vault, whoever opened it and on whatever mint, is owned by the
      same authority, derived from the one fixed seed. */
  lemma OneVaultAuthority(s: State, a: StartAccounts, signers: set<Pubkey>, t1: u64, t2: u64,
                          s': State, a': StartAccounts, signers': set<Pubkey>, t1': u64, t2': u64,
                          search: BumpSearch)
    requires StartEscrow(s, a, signers, search, t1, t2).Ok?
    requires StartEscrow(s', a', signers', search, t1', t2').Ok?
    ensures StartEscrow(s, a, signers, search, t1, t2).value.tokens[a.token1Vault].owner
         == StartEscrow(s', a', signers', search, t1', t2').value.tokens[a'.token1Vault].owner
         == CreateProgramAddress(VaultOwnerSeeds + [BumpSeed(search(VaultOwnerSeeds))])
  {
  }

  /** Cancelling an escrow just opened, with the same token-1 account, vault
      and vault owner and the canonical bump, succeeds whoever signs it; it
      returns the token ledger to exactly what it was before the deposit and
      closes the vault into the canceller. */
  lemma StartThenCancelRestores(s: State, a: StartAccounts, signers: set<Pubkey>, search: BumpSearch,
                                t1: u64, t2: u64, canceller: Pubkey, signers': set<Pubkey>)
    requires StartEscrow(s, a, signers, search, t1, t2).Ok?
    requires Signed(canceller, signers')
    ensures
      var s1 := StartEscrow(s, a, signers, search, t1, t2).value;
      var c := CancelAccounts(canceller, a.escrowAccount, a.initUserToken1, a.token1Vault, a.vaultOwner);
      var r := CancelEscrow(s1, c, signers', search(VaultOwnerSeeds));
      && r.Ok?
      && r.value.tokens == s.tokens
      && a.token1Vault !in r.value.tokens
      && r.value.tokens[a.initUserToken1].amount == s.tokens[a.initUserToken1].amount
      && r.value.closures == s.closures + [Closure(a.token1Vault, canceller)]
  {
    var s1 := StartEscrow(s, a, signers, search, t1, t2).value;
    var c := CancelAccounts(canceller, a.escrowAccount, a.initUserToken1, a.token1Vault, a.vaultOwner);
    var bump := search(VaultOwnerSeeds);
    var vaultSigners := VaultCallSigners(signers', bump);
    assert a.vaultOwner == VaultOwnerSigner(bump);
    assert a.vaultOwner in vaultSigners;
    assert ValidateCancel(s1, c, signers').Ok?;
    var refund := Transfer(s1.tokens, TransferVaultToUser1(c), vaultSigners, t1);
    assert refund.Ok?;
    var closed := CloseAccount(refund.value, CancelCloseVault(c), vaultSigners);
    assert closed.Ok?;
    assert closed.value == s.tokens by {
      assert closed.value.Keys == s.tokens.Keys;
      forall k | k in s.tokens
        ensures closed.value[k] == s.tokens[k]
      {
        if k == a.initUserToken1 {
          assert closed.value[k] == refund.value[k];
        }
      }
    }
  }

  /** The trade itself: on an escrow just opened, a counterparty who signs,
      owns a token-2 account of the record's token-2 mint covering the price,
      and names a token-1 account of the record's token-1 mint, can exchange
      with the canonical bump. The depositor's token-2 account gains the
      price, the counterparty pays it and gains the deposit, and the vault is
      closed into the counterparty. */
  lemma StartThenExchange(s: State, a: StartAccounts, signers: set<Pubkey>, search: BumpSearch,
                          t1: u64, t2: u64, x: ExchangeAccounts, signers': set<Pubkey>)
    requires StartEscrow(s, a, signers, search, t1, t2).Ok?
    requires x.escrowAccount == a.escrowAccount && x.initUserToken1 == a.initUserToken1
    requires x.initUserToken2 == a.initUserToken2
    requires x.token1Vault == a.token1Vault && x.vaultOwner == a.vaultOwner
    requires Signed(x.payer, signers')
    requires x.user2Token1 in s.tokens && s.tokens[x.user2Token1].mint == a.token1Mint
    requires x.user2Token2 in s.tokens && s.tokens[x.user2Token2].mint == a.token2Mint
    requires s.tokens[x.user2Token2].owner == x.payer && t2 <= s.tokens[x.user2Token2].amount
    // the counterparty's accounts are its own, not the depositor's
    requires x.user2Token1 != x.user2Token2
    requires x.user2Token1 !in {a.initUserToken1, a.initUserToken2}
    requires x.user2Token2 !in {a.initUserToken1, a.initUserToken2}
    // neither destination overflows u64
    requires s.tokens[a.initUserToken2].amount + t2 <= U64_MAX
    requires s.tokens[x.user2Token1].amount + t1 <= U64_MAX
    ensures
      var s1 := StartEscrow(s, a, signers, search, t1, t2).value;
      var r := Exchange(s1, x, signers', search(VaultOwnerSeeds));
      && r.Ok?
      && r.value.tokens[a.initUserToken2].amount == s1.tokens[a.initUserToken2].amount + t2
      && r.value.tokens[x.user2Token2].amount == s.tokens[x.user2Token2].amount - t2
      && r.value.tokens[x.user2Token1].amount == s.tokens[x.user2Token1].amount + t1
      && (a.initUserToken2 != a.initUserToken1 ==>
            r.value.tokens[a.initUserToken2].amount == s.tokens[a.initUserToken2].amount + t2)
      && a.token1Vault !in r.value.tokens
      && r.value.closures == s.closures + [Closure(a.token1Vault, x.payer)]
  {
  }

  /** A vault owned by the canonical authority can be cancelled or exchanged
      only with the canonical bump: any other bump derives a different signer,
      and no wallet can sign for a derived address. */
  lemma WrongBumpFails(s: State, search: BumpSearch, bump: u8, signers: set<Pubkey>,
                       c: CancelAccounts, x: ExchangeAccounts)
    requires c.token1Vault in s.tokens && s.tokens[c.token1Vault].owner == VaultAuthority(search)
    requires x.token1Vault in s.tokens && s.tokens[x.token1Vault].owner == VaultAuthority(search)
    requires bump != search(VaultOwnerSeeds)
    ensures CancelEscrow(s, c, signers, bump).Err?
    ensures Exchange(s, x, signers, bump).Err?
  {
    var canonical := search(VaultOwnerSeeds);
    BumpDetermines(VaultOwnerSeeds, bump, canonical);
    assert VaultAuthority(search) !in VaultCallSigners(signers, bump);
  }

  /** The counterparty pays before any vault token moves: when the payment leg
      fails, the exchange fails with that leg's error. */
  lemma ExchangePaymentFirst(s: State, a: ExchangeAccounts, signers: set<Pubkey>, bump: u8)
    requires ValidateExchange(s, a, signers).Ok?
    requires Transfer(s.tokens, TransferUser2ToUser1(a), WalletSigners(signers), s.escrows[a.escrowAccount].token2Amt).Err?
    ensures Exchange(s, a, signers, bump)
         == Err(Token(Transfer(s.tokens, TransferUser2ToUser1(a), WalletSigners(signers), s.escrows[a.escrowAccount].token2Amt).error))
  {
  }

  /** Once a cancel or an exchange has closed a vault, no later cancel or
      exchange naming that vault can succeed. */
  lemma VaultConsumedOnce(s: State, signers: set<Pubkey>, bump: u8, signers': set<Pubkey>, bump': u8,
                          c: CancelAccounts, x: ExchangeAccounts, c': CancelAccounts, x': ExchangeAccounts)
    requires c'.token1Vault == c.token1Vault && x'.token1Vault == c.token1Vault
    requires x.token1Vault == c.token1Vault
    ensures CancelEscrow(s, c, signers, bump).Ok? ==>
      var s1 := CancelEscrow(s, c, signers, bump).value;
      CancelEscrow(s1, c', signers', bump').Err? && Exchange(s1, x', signers', bump').Err?
    ensures Exchange(s, x, signers, bump).Ok? ==>
      var s1 := Exchange(s, x, signers, bump).value;
      CancelEscrow(s1, c', signers', bump').Err? && Exchange(s1, x', signers', bump').Err?
  {
  }

  /** No instruction creates or destroys tokens of any mint. */
  lemma StartConserves(s: State, a: StartAccounts, signers: set<Pubkey>, search: BumpSearch, t1: u64, t2: u64, mint: Pubkey)
    requires StartEscrow(s, a, signers, search, t1, t2).Ok?
    ensures MintTotal(StartEscrow(s, a, signers, search, t1, t2).value.tokens, mint) == MintTotal(s.tokens, mint)
  {
    var withVault := InitAccount(s.tokens, a.token1Vault, a.token1Mint, a.vaultOwner);
    InitConserves(s.tokens, a.token1Vault, a.token1Mint, a.vaultOwner, mint);
    TransferConserves(withVault, TransferUser1ToVault(a), WalletSigners(signers), t1, mint);
  }

  lemma CancelConserves(s: State, a: CancelAccounts, signers: set<Pubkey>, bump: u8, mint: Pubkey)
    requires CancelEscrow(s, a, signers, bump).Ok?
    ensures MintTotal(CancelEscrow(s, a, signers, bump).value.tokens, mint) == MintTotal(s.tokens, mint)
  {
    var info := s.escrows[a.escrowAccount];
    var vaultSigners := VaultCallSigners(signers, bump);
    var refunded := Transfer(s.tokens, TransferVaultToUser1(a), vaultSigners, info.token1Amt).value;
    TransferConserves(s.tokens, TransferVaultToUser1(a), vaultSigners, info.token1Amt, mint);
    CloseConserves(refunded, CancelCloseVault(a), vaultSigners, mint);
  }

  lemma ExchangeConserves(s: State, a: ExchangeAccounts, signers: set<Pubkey>, bump: u8, mint: Pubkey)
    requires Exchange(s, a, signers, bump).Ok?
    ensures MintTotal(Exchange(s, a, signers, bump).value.tokens, mint) == MintTotal(s.tokens, mint)
  {
    var info := s.escrows[a.escrowAccount];
    var paid := Transfer(s.tokens, TransferUser2ToUser1(a), WalletSigners(signers), info.token2Amt).value;
    TransferConserves(s.tokens, TransferUser2ToUser1(a), WalletSigners(signers), info.token2Amt, mint);
    var vaultSigners := VaultCallSigners(signers, bump);
    var delivered := Transfer(paid, TransferVaultToUser2(a), vaultSigners, info.token1Amt).value;
    TransferConserves(paid, TransferVaultToUser2(a), vaultSigners, info.token1Amt, mint);
    CloseConserves(delivered, ExchangeCloseVault(a), vaultSigners, mint);
  }

  /** `exchange` never compares the token-2 destination with the record: a
      counterparty who names its own token-2 account as the destination keeps
      its token-2 balance and still receives the vault's tokens. */
  lemma ExchangeToOwnAccount(s: State, a: ExchangeAccounts, signers: set<Pubkey>, bump: u8)
    requires a.initUserToken2 == a.user2Token2 && a.token1Vault != a.user2Token1
    requires a.user2Token2 != a.token1Vault && a.user2Token2 != a.user2Token1
    requires Exchange(s, a, signers, bump).Ok?
    ensures
      var s' := Exchange(s, a, signers, bump).value;
      && s'.tokens[a.user2Token2] == s.tokens[a.user2Token2]
      && s'.tokens[a.user2Token1].amount == s.tokens[a.user2Token1].amount + s.escrows[a.escrowAccount].token1Amt
  {
    var info := s.escrows[a.escrowAccount];
    var paid := Transfer(s.tokens, TransferUser2ToUser1(a), WalletSigners(signers), info.token2Amt).value;
    assert paid == s.tokens;
  }

  /** `cancel_escrow` compares neither the payer nor the refund account with
      the record: here someone other than the depositor cancels the
      depositor's escrow and the refund goes to that someone's account. */
  lemma StrangerCancels()
    ensures
      var search: BumpSearch := _ => 0;
      var mint := Wallet(100);
      var depositor := Wallet(1);
      var stranger := Wallet(2);
      var vault := VaultAddress(depositor, mint, search);
      var info := EscrowInfo(depositor, mint, Wallet(101), Wallet(10), Wallet(11), 7, 3);
      var s := State(
        map[vault := TokenAccount(mint, VaultAuthority(search), 7),
            Wallet(10) := TokenAccount(mint, depositor, 0),
            Wallet(20) := TokenAccount(mint, stranger, 0)],
        {mint, Wallet(101)},
        map[Wallet(30) := info],
        []);
      var c := CancelAccounts(stranger, Wallet(30), Wallet(20), vault, VaultAuthority(search));
      var r := CancelEscrow(s, c, {stranger}, 0);
      && r.Ok?
      && stranger != info.initUser && Wallet(20) != info.initUserToken1
      && r.value.tokens[Wallet(20)].amount == 7
      && r.value.tokens[Wallet(10)].amount == 0
  {
    var search: BumpSearch := _ => 0;
    var mint := Wallet(100);
    var stranger := Wallet(2);
    var vault := VaultAddress(Wallet(1), mint, search);
    assert VaultAuthority(search) == VaultOwnerSigner(0);
    assert vault != Wallet(10) && vault != Wallet(20);
  }

  /** Single use holds per vault, not per record: `cancel_escrow` ties the
      vault to nothing in the record and no handler closes the record, so
      one record can be cancelled twice against two different vaults owned
      by the vault authority, refunding its amount each time. */
  lemma RecordCancelledTwice()
    ensures
      var search: BumpSearch := _ => 0;
      var mint := Wallet(100);
      var depositor := Wallet(1);
      var vault1 := VaultAddress(depositor, mint, search);
      var vault2 := VaultAddress(Wallet(2), mint, search);
      var info := EscrowInfo(depositor, mint, Wallet(101), Wallet(10), Wallet(11), 7, 3);
      var s := State(
        map[vault1 := TokenAccount(mint, VaultAuthority(search), 7),
            vault2 := TokenAccount(mint, VaultAuthority(search), 7),
            Wallet(10) := TokenAccount(mint, depositor, 0)],
        {mint, Wallet(101)},
        map[Wallet(30) := info],
        []);
      var c1 := CancelAccounts(depositor, Wallet(30), Wallet(10), vault1, VaultAuthority(search));
      var c2 := CancelAccounts(depositor, Wallet(30), Wallet(10), vault2, VaultAuthority(search));
      var r1 := CancelEscrow(s, c1, {depositor}, 0);
      && r1.Ok?
      && var r2 := CancelEscrow(r1.value, c2, {depositor}, 0);
      && r2.Ok?
      && r2.value.escrows == s.escrows
      && r2.value.tokens[Wallet(10)].amount == 14
  {
    var search: BumpSearch := _ => 0;
    var mint := Wallet(100);
    var vault1 := VaultAddress(Wallet(1), mint, search);
    var vault2 := VaultAddress(Wallet(2), mint, search);
    VaultAddressInjective(Wallet(1), mint, Wallet(2), mint, search);
    assert VaultAuthority(search) == VaultOwnerSigner(0);
    assert vault1 != Wallet(10) && vault2 != Wallet(10);
  }
}
