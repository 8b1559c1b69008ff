/** wallets/wallets.go: the supported wallet types. */
module WalletTypes {
  const WalletTypeAlby: string := "alby"
  const WalletTypeZBD: string := "zbd"

  /** AllSupportedWallets */
  const AllSupportedWallets: seq<string> := [WalletTypeAlby, WalletTypeZBD]
}

/** wallets/wallets.go: turning a stored wallet into a preimage provider,
    and deleting a wallet, by dispatch on its type. */
module Wallets {
  import opened Errors
  import opened Http
  import opened Values
  import opened WalletStore
  import opened WalletTypes
  import opened WalletsAlby
  import opened WalletsZbd

  /** The PreimageProvider implementations. */
  datatype PreimageProvider = AlbyProvider(alby: AlbyClient) | ZbdProvider(zbd: ZBDClient)

  /** GetWallet's dispatch on a wallet read from the store, given what the
      token lookup would give; only the token-based types look it up. */
  function Provider(w: Wallet, token: Result<string>): Result<PreimageProvider> {
    if w.walletType == "alby" then
      if token.Err? then Err(token.error) else Ok(AlbyProvider(NewAlbyClient(token.value)))
    else if w.walletType == "zbd" then
      if token.Err? then Err(token.error) else Ok(ZbdProvider(NewZBDClient(token.value)))
    else Err(Failure("unsupported wallet type: " + w.walletType))
  }

  /** GetWallet's result for the store's answers to its two lookups. */
  function Dispatched(w: Result<Wallet>, token: Result<string>): Result<PreimageProvider> {
    if w.Err? then Err(w.error) else Provider(w.value, token)
  }

  /** Every result GetWallet may give. */
  function ProviderAnswers(t: Tables, failing: set<Statement>, id: Uint64): set<Result<PreimageProvider>> {
    set w, k | w in WalletAnswers(t, failing, id) && k in TokenAnswers(t, failing, id) :: Dispatched(w, k)
  }

  /** GetWallet */
  method GetWallet(store: WalletTable, id: Uint64) returns (r: Result<PreimageProvider>)
    ensures r in ProviderAnswers(store.State(), store.failing, id)
  {
    var w := store.GetWallet(id);
    TokenAnswersNonEmpty(store.State(), store.failing, id);
    var some :| some in TokenAnswers(store.State(), store.failing, id);
    if w.Err? {
      r := Err(w.error);
      assert r == Dispatched(w, some);
      return;
    }
    var wallet := w.value;
    if wallet.walletType == "alby" || wallet.walletType == "zbd" {
      var token := store.GetWalletToken(id);
      if token.Err? {
        r := Err(token.error);
      } else if wallet.walletType == "alby" {
        r := Ok(AlbyProvider(NewAlbyClient(token.value)));
      } else {
        r := Ok(ZbdProvider(NewZBDClient(token.value)));
      }
      assert r == Provider(wallet, token);
    } else {
      r := Err(Failure("unsupported wallet type: " + wallet.walletType));
      assert r == Provider(wallet, some);
    }
  }

  /** GetDefaultWallet: GetWallet on the default id; the store's error,
      such as ErrNoWalletFound, is returned as it is. */
  method GetDefaultWallet(store: WalletTable) returns (r: Result<PreimageProvider>)
    ensures DefaultAnswer(store.State(), store.failing).Err? ==>
      r == Err(DefaultAnswer(store.State(), store.failing).error)
    ensures DefaultAnswer(store.State(), store.failing).Ok? ==>
      r in ProviderAnswers(store.State(), store.failing, DefaultAnswer(store.State(), store.failing).value)
  {
    var id := store.GetDefaultWallet();
    if id.Err? {
      return Err(id.error);
    }
    r := GetWallet(store, id.value);
  }

  /** DeleteWallet's dispatch on the wallet read from the store. */
  function Deleted(t: Tables, failing: set<Statement>, id: Uint64, w: Result<Wallet>): Outcome {
    match w
    case Err(e) => Outcome(t, 0, Some(e))
    case Ok(wallet) =>
      if wallet.walletType == "alby" || wallet.walletType == "zbd" then DeletedTokenWallet(t, failing, id)
      else Outcome(t, 0, Some(Failure("delete wallet " + wallet.walletType + " not implemented")))
  }

  /** DeleteWallet */
  method DeleteWallet(store: WalletTable, id: Uint64) returns (err: Option<Error>)
    requires store.Valid()
    modifies store`wallets, store`tokens
    ensures store.Valid()
    ensures exists w | w in WalletAnswers(old(store.State()), store.failing, id) ::
      Outcome(store.State(), 0, err) == Deleted(old(store.State()), store.failing, id, w)
  {
    var w := store.GetWallet(id);
    if w.Err? {
      return Some(w.error);
    }
    if w.value.walletType == "alby" {
      err := DeleteAlbyWallet(store, id);
    } else if w.value.walletType == "zbd" {
      err := DeleteZBDWallet(store, id);
    } else {
      err := Some(Failure("delete wallet " + w.value.walletType + " not implemented"));
    }
  }

  /** PreimageProvider.GetPreimage: Alby pays through the transport, ZBD
      answers at once with no request. */
  method GetPreimage(p: PreimageProvider, invoice: string, ports: Ports) returns (r: Result<string>)
    modifies ports`replies, ports`sent
    ensures p.ZbdProvider? ==> r == Ok("") && ports.sent == old(ports.sent) && ports.replies == old(ports.replies)
    ensures p.AlbyProvider? ==>
      && r == PreimageOutcome(NextReply(old(ports.replies)))
      && ports.sent == old(ports.sent) + [PreimageRequest(p.alby, invoice)]
  {
    match p
    case AlbyProvider(c) => r := WalletsAlby.GetPreimage(c, invoice, ports);
    case ZbdProvider(c) => r := ZbdPreimage(c, invoice);
  }

  // ---------------------------------------------------------------------
  // Properties

  /** The token lookup always has some result. */
  lemma TokenAnswersNonEmpty(t: Tables, failing: set<Statement>, id: Uint64)
    ensures TokenAnswers(t, failing, id) != {}
  {
    if SelectToken !in failing && exists r | r in t.tokens :: r.walletID == id {
      var r :| r in t.tokens && r.walletID == id;
      assert Ok(r.token) in TokenAnswers(t, failing, id);
    }
  }

  /** A provider comes only from a stored wallet with that id: an Alby or
      ZBD client holding a token stored for it. */
  lemma ProviderFromStoredWallet(t: Tables, failing: set<Statement>, id: Uint64, r: Result<PreimageProvider>)
    requires r in ProviderAnswers(t, failing, id)
    ensures r.Ok? ==> exists w | w in t.wallets && w.id == id ::
      || (w.walletType == "alby" && r.value.AlbyProvider? && TokenRow(id, r.value.alby.apiKey) in t.tokens)
      || (w.walletType == "zbd" && r.value.ZbdProvider? && TokenRow(id, r.value.zbd.apiKey) in t.tokens)
  {
    if r.Ok? {
      var w, k :| w in WalletAnswers(t, failing, id) && k in TokenAnswers(t, failing, id)
                  && r == Dispatched(w, k);
      WalletAnswersCases(t, failing, id, w);
      TokenAnswersCases(t, failing, id, k);
    }
  }

  /** A stored wallet of any other type, matched exactly and
      case-sensitively, gives "unsupported wallet type", and nothing else. */
  lemma UnsupportedTypeRejected(t: Tables, failing: set<Statement>, w: Wallet)
    requires Consistent(t) && SelectWallet !in failing && w in t.wallets
    requires w.walletType !in AllSupportedWallets
    ensures ProviderAnswers(t, failing, w.id) == {Err(Failure("unsupported wallet type: " + w.walletType))}
  {
    StoredWalletIsTheAnswer(t, failing, w);
    TokenAnswersNonEmpty(t, failing, w.id);
    var k :| k in TokenAnswers(t, failing, w.id);
    assert Dispatched(Ok(w), k) == Err(Failure("unsupported wallet type: " + w.walletType));
  }

  /** An Alby or ZBD wallet without a token gives the token lookup's raw
      error, not ErrNoWalletFound. */
  lemma MissingTokenPropagates(t: Tables, failing: set<Statement>, w: Wallet)
    requires Consistent(t) && SelectWallet !in failing && SelectToken !in failing && w in t.wallets
    requires w.walletType in AllSupportedWallets
    requires forall r | r in t.tokens :: r.walletID != w.id
    ensures ProviderAnswers(t, failing, w.id) == {Err(NoRows)}
  {
    StoredWalletIsTheAnswer(t, failing, w);
    assert TokenAnswers(t, failing, w.id) == {Err(NoRows)};
    assert Provider(w, Err(NoRows)) == Err(NoRows);
  }

  /** Deleting a wallet of an unsupported type writes nothing; a failed
      lookup is returned as it is and writes nothing either. */
  lemma DeleteUnsupportedWritesNothing(t: Tables, failing: set<Statement>, id: Uint64, w: Result<Wallet>)
    requires w.Err? || w.value.walletType !in AllSupportedWallets
    ensures Deleted(t, failing, id, w).tables == t
    ensures w.Ok? ==> Deleted(t, failing, id, w).err == Some(Failure("delete wallet " + w.value.walletType + " not implemented"))
    ensures w.Err? ==> Deleted(t, failing, id, w).err == Some(w.error)
  {
  }
}
