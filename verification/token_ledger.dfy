/** The part of the SPL Token program the escrow calls into: token accounts,
    `transfer`, `close_account` and account initialisation, each with the
    checks the token program makes before it changes anything. */
module TokenLedger {
  import opened Results
  import opened Addresses

  /** A token account: which mint it holds, who may move its tokens, how many. */
  datatype TokenAccount = TokenAccount(mint: Pubkey, owner: Pubkey, amount: u64)

  /** Every token account that exists, by address. */
  type Ledger = map<Pubkey, TokenAccount>

  /** Errors the token program reports. */
  datatype TokenError =
    | UninitializedAccount
    | InsufficientFunds
    | MintMismatch
    | OwnerMismatch
    | MissingRequiredSignature
    | Overflow
    | NonNativeHasBalance
    | InvalidAccountData

  /** The accounts of one `Transfer` instruction. */
  datatype TransferAccounts = TransferAccounts(from: Pubkey, to: Pubkey, authority: Pubkey)

  /** The accounts of one `CloseAccount` instruction. */
  datatype CloseAccounts = CloseAccounts(account: Pubkey, destination: Pubkey, authority: Pubkey)

  /** The token program's owner validation: the authority must be the
      account's owner, and it must have signed. */
  function ValidateOwner(acct: TokenAccount, authority: Pubkey, signers: set<Pubkey>): (c: Result<(), TokenError>)
    ensures c.Ok? <==> authority == acct.owner && authority in signers
  {
    if authority != acct.owner then Err(OwnerMismatch)
    else if authority !in signers then Err(MissingRequiredSignature)
    else Ok(())
  }

  /** What a successful transfer of `amount` from `from` to `to` does: debits
      one, credits the other, and leaves every other account alone. */
  ghost predicate Moved(l: Ledger, l': Ledger, from: Pubkey, to: Pubkey, amount: int)
    requires from in l && to in l
  {
    && l'.Keys == l.Keys
    && (from != to ==>
          && l'[from].mint == l[from].mint && l'[from].owner == l[from].owner
          && l'[from].amount == l[from].amount - amount
          && l'[to].mint == l[to].mint && l'[to].owner == l[to].owner
          && l'[to].amount == l[to].amount + amount)
    && (from == to ==> l'[from] == l[from])
    && forall k :: k in l && k != from && k != to ==> l'[k] == l[k]
  }

  /** SPL `transfer`. `signers` holds every key that signed the call, including
      a program-derived signer. A transfer to the source itself makes every
      check and then changes nothing. */
  function Transfer(l: Ledger, ix: TransferAccounts, signers: set<Pubkey>, amount: u64): (r: Result<Ledger, TokenError>)
    ensures r.Ok? <==>
      && ix.from in l && ix.to in l
      && amount <= l[ix.from].amount
      && l[ix.from].mint == l[ix.to].mint
      && ix.authority == l[ix.from].owner && ix.authority in signers
      && (ix.from != ix.to ==> l[ix.to].amount + amount <= U64_MAX)
    ensures r.Ok? ==> Moved(l, r.value, ix.from, ix.to, amount)
  {
    var _ :- Need(ix.from in l && ix.to in l, UninitializedAccount);
    var source := l[ix.from];
    var dest := l[ix.to];
    var _ :- Need(amount <= source.amount, InsufficientFunds);
    var _ :- Need(source.mint == dest.mint, MintMismatch);
    var _ :- ValidateOwner(source, ix.authority, signers);
    if ix.from == ix.to then Ok(l)
    else
      var _ :- Need(dest.amount + amount <= U64_MAX, Overflow);
      Ok(l[ix.from := source.(amount := source.amount - amount)]
          [ix.to := dest.(amount := dest.amount + amount)])
  }

  /** SPL `close_account`: only an empty account can be closed, by its owner,
      into some other account. The rent the account held goes to the
      destination; that credit is recorded by the caller, not in the ledger. */
  function CloseAccount(l: Ledger, ix: CloseAccounts, signers: set<Pubkey>): (r: Result<Ledger, TokenError>)
    ensures r.Ok? <==>
      && ix.account != ix.destination
      && ix.account in l
      && l[ix.account].amount == 0
      && ix.authority == l[ix.account].owner && ix.authority in signers
    ensures r.Ok? ==> r.value.Keys == l.Keys - {ix.account}
    ensures r.Ok? ==> forall k :: k in r.value ==> r.value[k] == l[k]
  {
    var _ :- Need(ix.account != ix.destination, InvalidAccountData);
    var _ :- Need(ix.account in l, UninitializedAccount);
    var acct := l[ix.account];
    var _ :- Need(acct.amount == 0, NonNativeHasBalance);
    var _ :- ValidateOwner(acct, ix.authority, signers);
    Ok(l - {ix.account})
  }

  /** `InitializeAccount` on a freshly allocated address: an empty account of
      `mint` owned by `owner`. Allocation itself refuses an address in use,
      and that refusal is made by the caller. */
  function InitAccount(l: Ledger, key: Pubkey, mint: Pubkey, owner: Pubkey): (l': Ledger)
    requires key !in l
    ensures l'.Keys == l.Keys + {key}
    ensures l'[key] == TokenAccount(mint, owner, 0)
    ensures forall k :: k in l ==> l'[k] == l[k]
  {
    l[key := TokenAccount(mint, owner, 0)]
  }

  /** How much of `mint` one account holds. */
  function Held(a: TokenAccount, mint: Pubkey): nat {
    if a.mint == mint then a.amount else 0
  }

  /** The total of `mint` over every account of the ledger. */
  ghost function MintTotal(l: Ledger, mint: Pubkey): nat
    decreases |l.Keys|
  {
    if l.Keys == {} then 0
    else
      var k :| k in l.Keys;
      assert (l - {k}).Keys == l.Keys - {k};
      Held(l[k], mint) + MintTotal(l - {k}, mint)
  }

  /** Any account can be taken out of the total first, not just the one the
      definition happens to pick. */
  lemma {:induction false} MintTotalRemove(l: Ledger, k: Pubkey, mint: Pubkey)
    requires k in l
    ensures MintTotal(l, mint) == Held(l[k], mint) + MintTotal(l - {k}, mint)
    decreases |l.Keys|
  {
    var j :| j in l.Keys && MintTotal(l, mint) == Held(l[j], mint) + MintTotal(l - {j}, mint);
    if j != k {
      assert (l - {j}).Keys == l.Keys - {j};
      assert (l - {k}).Keys == l.Keys - {k};
      MintTotalRemove(l - {j}, k, mint);
      MintTotalRemove(l - {k}, j, mint);
      assert (l - {j}) - {k} == (l - {k}) - {j};
    }
  }

  /** Replacing one existing account changes the total by the difference. */
  lemma MintTotalUpdate(l: Ledger, k: Pubkey, v: TokenAccount, mint: Pubkey)
    requires k in l
    ensures MintTotal(l[k := v], mint) + Held(l[k], mint) == MintTotal(l, mint) + Held(v, mint)
  {
    MintTotalRemove(l[k := v], k, mint);
    MintTotalRemove(l, k, mint);
    assert l[k := v] - {k} == l - {k};
  }

  /** A transfer keeps the total of every mint. */
  lemma TransferConserves(l: Ledger, ix: TransferAccounts, signers: set<Pubkey>, amount: u64, mint: Pubkey)
    requires Transfer(l, ix, signers, amount).Ok?
    ensures MintTotal(Transfer(l, ix, signers, amount).value, mint) == MintTotal(l, mint)
  {
    if ix.from != ix.to {
      var source := l[ix.from];
      var l1 := l[ix.from := source.(amount := source.amount - amount)];
      MintTotalUpdate(l, ix.from, source.(amount := source.amount - amount), mint);
      MintTotalUpdate(l1, ix.to, l[ix.to].(amount := l[ix.to].amount + amount), mint);
    }
  }

  /** Closing an account (which must be empty) keeps the total of every mint. */
  lemma CloseConserves(l: Ledger, ix: CloseAccounts, signers: set<Pubkey>, mint: Pubkey)
    requires CloseAccount(l, ix, signers).Ok?
    ensures MintTotal(CloseAccount(l, ix, signers).value, mint) == MintTotal(l, mint)
  {
    MintTotalRemove(l, ix.account, mint);
  }

  /** A new account starts empty, so it adds nothing to any total. */
  lemma InitConserves(l: Ledger, key: Pubkey, m: Pubkey, owner: Pubkey, mint: Pubkey)
    requires key !in l
    ensures MintTotal(InitAccount(l, key, m, owner), mint) == MintTotal(l, mint)
  {
    var l' := InitAccount(l, key, m, owner);
    MintTotalRemove(l', key, mint);
    assert l' - {key} == l;
  }
}
