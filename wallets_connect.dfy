/** wallets/connect.go: the `wallet connect` command's checks and the
    insert sequence for wallets reached through an API token. */
module WalletsConnect {
  import opened Errors
  import opened Values
  import opened WalletStore
  import opened WalletTypes

  /** connectTokenWallet: insert the wallet, then its token under the id
      the insert returned; a failing step ends the sequence, and nothing
      already written is undone. */
  function ConnectedTokenWallet(t: Tables, failing: set<Statement>, walletType: string, token: string, now: Timestamp): Outcome {
    var w := AddWallet(t, failing, walletType, now);
    if w.err.Some? then Outcome(w.tables, 0, Some(Wrapped("unable to insert wallet", w.err.value)))
    else
      var k := AddToken(w.tables, failing, w.id, token);
      if k.err.Some? then Outcome(k.tables, 0, Some(Wrapped("unable to insert wallet token", k.err.value)))
      else Outcome(k.tables, w.id, None)
  }

  /** connectTokenWallet */
  method ConnectTokenWallet(store: WalletTable, walletType: string, token: string, now: Timestamp)
    returns (id: Uint64, err: Option<Error>)
    requires store.Valid()
    modifies store`wallets, store`nextID, store`defaults, store`tokens
    ensures store.Valid()
    ensures Outcome(store.State(), id, err) == ConnectedTokenWallet(old(store.State()), store.failing, walletType, token, now)
  {
    var e;
    id, e := store.InsertWallet(walletType, now);
    if e.Some? {
      return 0, Some(Wrapped("unable to insert wallet", e.value));
    }
    e := store.InsertWalletToken(id, token);
    if e.Some? {
      return 0, Some(Wrapped("unable to insert wallet token", e.value));
    }
    err := None;
  }

  /** connectWallet's checks on its flags, made before any write. */
  function ConnectCheck(walletType: string, token: string): Option<Error> {
    if walletType != WalletTypeAlby && walletType != WalletTypeZBD then
      Some(Failure("unsupported wallet type: " + walletType))
    else if token == "" then
      Some(Failure("token argument is required for " + walletType + " wallets"))
    else None
  }

  /** connectWallet, given the `type` and `token` flags. */
  method ConnectWallet(store: WalletTable, walletType: string, token: string, now: Timestamp) returns (err: Option<Error>)
    requires store.Valid()
    modifies store`wallets, store`nextID, store`defaults, store`tokens
    ensures store.Valid()
    ensures ConnectCheck(walletType, token).Some? ==>
      err == ConnectCheck(walletType, token) && store.State() == old(store.State())
    ensures ConnectCheck(walletType, token).None? ==>
      var o := ConnectedTokenWallet(old(store.State()), store.failing, walletType, token, now);
      err == o.err && store.State() == o.tables
  {
    if walletType == WalletTypeAlby || walletType == WalletTypeZBD {
      if token == "" {
        return Some(Failure("token argument is required for " + walletType + " wallets"));
      }
      var id;
      id, err := ConnectTokenWallet(store, walletType, token, now);
    } else {
      return Some(Failure("unsupported wallet type: " + walletType));
    }
  }

  /** The flags pass exactly when the type is a supported one and a token
      is given; the type is checked first. */
  lemma ConnectCheckExactly(walletType: string, token: string)
    ensures ConnectCheck(walletType, token).None? <==> walletType in AllSupportedWallets && token != ""
    ensures walletType !in AllSupportedWallets ==>
      ConnectCheck(walletType, token) == Some(Failure("unsupported wallet type: " + walletType))
  {
  }

  /** A successful connection adds one wallet of that type under a fresh
      id, makes it the default and stores the token under that id. */
  lemma ConnectedWalletAndToken(t: Tables, failing: set<Statement>, walletType: string, token: string, now: Timestamp)
    requires Consistent(t)
    ensures var o := ConnectedTokenWallet(t, failing, walletType, token, now);
      && (o.err.None? <==>
            InsertWalletRow !in failing && t.nextID <= MaxRowID && DeleteDefault !in failing
            && InsertDefault !in failing && InsertToken !in failing)
      && (o.err.None? ==>
            && o.id == t.nextID && (forall w | w in t.wallets :: w.id != o.id)
            && o.tables.wallets == t.wallets + [Wallet(o.id, walletType, now)]
            && o.tables.tokens == t.tokens + [TokenRow(o.id, token)]
            && o.tables.defaults == [o.id])
  {
    AddWalletFresh(t, failing, walletType, now);
  }

  /** When the wallet cannot be inserted, no token is written. */
  lemma NoTokenWithoutWallet(t: Tables, failing: set<Statement>, walletType: string, token: string, now: Timestamp)
    requires AddWallet(t, failing, walletType, now).err.Some?
    ensures var o := ConnectedTokenWallet(t, failing, walletType, token, now);
      && o.tables.tokens == t.tokens && o.id == 0
      && o.err == Some(Wrapped("unable to insert wallet", AddWallet(t, failing, walletType, now).err.value))
  {
  }

  /** When only the token insert fails, the new wallet stays in place and
      remains the default: there is no rollback. */
  lemma NoRollback(t: Tables, failing: set<Statement>, walletType: string, token: string, now: Timestamp)
    requires Consistent(t)
    requires InsertWalletRow !in failing && t.nextID <= MaxRowID && DeleteDefault !in failing && InsertDefault !in failing
    requires InsertToken in failing
    ensures var o := ConnectedTokenWallet(t, failing, walletType, token, now);
      && o.err == Some(Wrapped("unable to insert wallet token", DatabaseFailure)) && o.id == 0
      && o.tables.wallets == t.wallets + [Wallet(t.nextID, walletType, now)]
      && o.tables.defaults == [t.nextID]
      && o.tables.tokens == t.tokens
  {
  }
}
