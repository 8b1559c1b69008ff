/** wallets/zbd.go: connecting and deleting a ZBD wallet; its preimage
    provider is a stub. */
module WalletsZbd {
  import opened Errors
  import opened Values
  import opened WalletStore
  import opened WalletTypes
  import opened WalletsConnect
  import opened WalletsAlby

  /** ZBDClient: the API key used against ZBD. */
  datatype ZBDClient = ZBDClient(apiKey: string)

  function NewZBDClient(apiKey: string): ZBDClient {
    ZBDClient(apiKey)
  }

  /** ZBDClient.GetPreimage: no request, no preimage, no error. */
  function ZbdPreimage(c: ZBDClient, invoice: string): Result<string> {
    Ok("")
  }

  /** ConnectZBDWallet: connectTokenWallet's sequence for a ZBD wallet. */
  method ConnectZBDWallet(store: WalletTable, apiKey: string, now: Timestamp) returns (id: Uint64, err: Option<Error>)
    requires store.Valid()
    modifies store`wallets, store`nextID, store`defaults, store`tokens
    ensures store.Valid()
    ensures Outcome(store.State(), id, err) == ConnectedTokenWallet(old(store.State()), store.failing, WalletTypeZBD, apiKey, now)
  {
    var e;
    id, e := store.InsertWallet(WalletTypeZBD, now);
    if e.Some? {
      return 0, Some(Wrapped("unable to insert wallet", e.value));
    }
    e := store.InsertWalletToken(id, apiKey);
    if e.Some? {
      return 0, Some(Wrapped("unable to insert wallet token", e.value));
    }
    err := None;
  }

  /** DeleteZBDWallet: the same order as for Alby, tokens first. */
  method DeleteZBDWallet(store: WalletTable, id: Uint64) returns (err: Option<Error>)
    requires store.Valid()
    modifies store`wallets, store`tokens
    ensures store.Valid()
    ensures Outcome(store.State(), 0, err) == DeletedTokenWallet(old(store.State()), store.failing, id)
  {
    var e := store.DeleteWalletToken(id);
    if e.Some? {
      return Some(Wrapped("unable to delete wallet token", e.value));
    }
    err := store.DeleteWallet(id);
  }

  /** The client keeps its key, and its preimage is empty and never an
      error, for every invoice. */
  lemma ZbdStub(apiKey: string, invoice: string)
    ensures NewZBDClient(apiKey).apiKey == apiKey
    ensures ZbdPreimage(NewZBDClient(apiKey), invoice) == Ok("")
  {
  }
}
