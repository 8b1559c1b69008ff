/** wallets/alby.go: connecting and deleting an Alby wallet, and paying an
    invoice through Alby's API to obtain its preimage. */
module WalletsAlby {
  import opened Errors
  import opened Strs
  import opened Http
  import opened Values
  import opened WalletStore
  import opened WalletTypes
  import opened WalletsConnect
  import Client

  const AlbyURL: string := "https://api.getalby.com"

  /** AlbyClient: the API key used against Alby. */
  datatype AlbyClient = AlbyClient(apiKey: string)

  function NewAlbyClient(apiKey: string): AlbyClient {
    AlbyClient(apiKey)
  }

  /** ConnectAlbyWallet: connectTokenWallet's sequence for an Alby wallet. */
  method ConnectAlbyWallet(store: WalletTable, apiKey: string, now: Timestamp) returns (id: Uint64, err: Option<Error>)
    requires store.Valid()
    modifies store`wallets, store`nextID, store`defaults, store`tokens
    ensures store.Valid()
    ensures Outcome(store.State(), id, err) == ConnectedTokenWallet(old(store.State()), store.failing, WalletTypeAlby, apiKey, now)
  {
    var e;
    id, e := store.InsertWallet(WalletTypeAlby, now);
    if e.Some? {
      return 0, Some(Wrapped("unable to insert wallet", e.value));
    }
    e := store.InsertWalletToken(id, apiKey);
    if e.Some? {
      return 0, Some(Wrapped("unable to insert wallet token", e.value));
    }
    err := None;
  }

  /** Deleting a token-based wallet: its tokens first, then the wallet row;
      a failing token delete leaves the wallet in place. */
  function DeletedTokenWallet(t: Tables, failing: set<Statement>, id: Uint64): Outcome {
    var k := RemoveTokens(t, failing, id);
    if k.err.Some? then Outcome(k.tables, 0, Some(Wrapped("unable to delete wallet token", k.err.value)))
    else RemoveWallet(k.tables, failing, id)
  }

  /** DeleteAlbyWallet */
  method DeleteAlbyWallet(store: WalletTable, id: Uint64) returns (err: Option<Error>)
    requires store.Valid()
    modifies store`wallets, store`tokens
    ensures store.Valid()
    ensures Outcome(store.State(), 0, err) == DeletedTokenWallet(old(store.State()), store.failing, id)
  {
    var e := store.DeleteWalletToken(id);
    if e.Some? {
      return Some(Wrapped("unable to delete wallet token", e.value));
    }
    err := store.DeleteWallet(id);
  }

  /** A successful delete leaves neither the wallet nor its tokens; a
      failing token delete changes nothing; the default is never touched. */
  lemma DeleteTokensThenWallet(t: Tables, failing: set<Statement>, id: Uint64)
    ensures var o := DeletedTokenWallet(t, failing, id);
      && o.tables.defaults == t.defaults && o.tables.nextID == t.nextID
      && (DeleteTokens in failing ==>
            o.tables == t && o.err == Some(Wrapped("unable to delete wallet token", DatabaseFailure)))
      && (DeleteTokens !in failing && DeleteWalletRow in failing ==>
            o.tables.wallets == t.wallets && o.err == Some(DatabaseFailure))
      && (o.err.None? ==>
            (forall w | w in o.tables.wallets :: w.id != id)
            && (forall r | r in o.tables.tokens :: r.walletID != id)
            && (forall w | w in t.wallets && w.id != id :: w in o.tables.wallets)
            && (forall r | r in t.tokens && r.walletID != id :: r in o.tables.tokens))
  {
    TokensExceptKeepsOthers(t.tokens, id);
    WalletsExceptKeepsOthers(t.wallets, id);
  }

  // ---------------------------------------------------------------------
  // AlbyClient.GetPreimage

  /** The POST that GetPreimage makes. */
  function PreimageRequest(c: AlbyClient, invoice: string): Request {
    Request("POST", AlbyURL + "/payments/bolt11",
            map["Authorization" := "Bearer " + c.apiKey, "Accept" := "application/json", "Content-Type" := "application/json"],
            Json(map["invoice" := JStr(invoice)]))
  }

  /** GetPreimage's result for the transport's reply. */
  function PreimageOutcome(reply: Reply): Result<string> {
    match reply
    case Unreachable(e) => Err(Wrapped("unable to send request", e))
    case Delivered(resp) =>
      if resp.status != StatusOK then
        Err(Failure("unexpected response(" + IntDecimal(resp.status) + "): " + resp.body))
      else match resp.json
        case None => Err(Wrapped("unable to parse response body", External("encoding/json")))
        case Some(fields) => Ok(JsonField(fields, "payment_preimage"))
  }

  /** AlbyClient.GetPreimage */
  method GetPreimage(c: AlbyClient, invoice: string, ports: Ports) returns (r: Result<string>)
    modifies ports`replies, ports`sent
    ensures r == PreimageOutcome(NextReply(old(ports.replies)))
    ensures ports.sent == old(ports.sent) + [PreimageRequest(c, invoice)]
    ensures ports.replies == Consumed(old(ports.replies), 1)
  {
    var reply := ports.Send(PreimageRequest(c, invoice));
    if reply.Unreachable? {
      return Err(Wrapped("unable to send request", reply.cause));
    }
    if reply.response.status != StatusOK {
      return Err(Failure("unexpected response(" + IntDecimal(reply.response.status) + "): " + reply.response.body));
    }
    if reply.response.json.None? {
      return Err(Wrapped("unable to parse response body", External("encoding/json")));
    }
    return Ok(JsonField(reply.response.json.value, "payment_preimage"));
  }

  /** A preimage comes back only from a 200 whose body decodes, verbatim
      and possibly empty; any other status is an error carrying the status
      and the body. */
  lemma PreimageOutcomeCases(reply: Reply)
    ensures PreimageOutcome(reply).Ok?
      <==> reply.Delivered? && reply.response.status == StatusOK && reply.response.json.Some?
    ensures PreimageOutcome(reply).Ok?
      ==> PreimageOutcome(reply).value == JsonField(reply.response.json.value, "payment_preimage")
    ensures reply.Unreachable? ==> PreimageOutcome(reply) == Err(Wrapped("unable to send request", reply.cause))
    ensures reply.Delivered? && reply.response.status != StatusOK ==>
      var m := PreimageOutcome(reply).error.message;
      HasPrefix(m, "unexpected response(" + IntDecimal(reply.response.status) + "): ")
      && EndsWith(m, reply.response.body)
  {
    if reply.Delivered? && reply.response.status != StatusOK {
      var p := "unexpected response(" + IntDecimal(reply.response.status) + "): ";
      var m := p + reply.response.body;
      assert m[..|p|] == p;
      assert m[|m| - |reply.response.body|..] == reply.response.body;
    }
  }

  /** The request is the one the L402 client's PayInvoice sends, and the
      two agree on every reply except in the wording of a non-200 error. */
  lemma SameAsClientPayment(c: AlbyClient, invoice: string, reply: Reply)
    ensures PreimageRequest(c, invoice) == Client.PaymentRequest(c.apiKey, invoice)
    ensures !(reply.Delivered? && reply.response.status != StatusOK) ==>
      PreimageOutcome(reply) == Client.PaymentOutcome(reply)
    ensures PreimageOutcome(reply).Ok? <==> Client.PaymentOutcome(reply).Ok?
  {
    assert AlbyURL + "/payments/bolt11" == Client.AlbyPaymentsURL;
  }
}
