/** client/client.go: the space-separated L402 challenge parser, the price
    decoder for BOLT #11 invoices, and the request executor that answers a
    402 Payment Required by asking the user, paying and resending once. */
module Client {
  import opened Errors
  import opened Strs
  import opened Http
  import opened Values

  /** The configured client: platform API key, domain and Alby token. */
  datatype HttpClient = HttpClient(apiKey: string, domain: string, albyToken: string)

  /** zpay32.Decode(invoice, network): the structural and checksum decode of
      a BOLT #11 invoice, giving its optional amount in millisatoshis. */
  type ZpayDecoder = (string, string) -> Result<Option<Uint64>>

  /** The foreign library code the executor calls: whether http.NewRequest
      accepts a method and URL, and the invoice decoder. */
  datatype Library = Library(newRequestOk: (string, string) -> bool, zpayDecode: ZpayDecoder)

  datatype Challenge = Challenge(macaroon: string, invoice: string)

  const AuthenticateHeader: string := "WWW-Authenticate"

  // ---------------------------------------------------------------------
  // ParseL402Challenge

  /** The text after `key` in the last piece that starts with `key`, or ""
      when no piece does. */
  function LastValue(parts: seq<string>, key: string): (v: string)
    ensures (forall k :: 0 <= k < |parts| ==> !HasPrefix(parts[k], key)) ==> v == ""
  {
    if |parts| == 0 then ""
    else if HasPrefix(parts[|parts| - 1], key) then TrimPrefix(parts[|parts| - 1], key)
    else LastValue(parts[..|parts| - 1], key)
  }

  /** What ParseL402Challenge gives for a WWW-Authenticate value. */
  function SpaceChallenge(header: string): (r: Result<Challenge>)
    ensures header == "" ==> r == Err(Failure("no L402 challenge found"))
    ensures r.Ok? ==> r.value.macaroon != "" && r.value.invoice != ""
  {
    if header == "" then Err(Failure("no L402 challenge found"))
    else
      var parts := Split(header, " ");
      var macaroon := LastValue(parts, "macaroon=");
      var invoice := LastValue(parts, "invoice=");
      if macaroon == "" || invoice == "" then Err(Failure("macaroon or invoice not found in challenge"))
      else Ok(Challenge(macaroon, invoice))
  }

  /** ParseL402Challenge: splits the header on single spaces and keeps the
      last `macaroon=` and `invoice=` token. */
  method ParseL402Challenge(resp: Response) returns (r: Result<Challenge>)
    ensures r == SpaceChallenge(HeaderValue(resp.headers, AuthenticateHeader))
  {
    var challenge := HeaderValue(resp.headers, AuthenticateHeader);
    if challenge == "" {
      return Err(Failure("no L402 challenge found"));
    }
    var parts := Split(challenge, " ");
    var macaroon, invoice := "", "";
    for k := 0 to |parts|
      invariant macaroon == LastValue(parts[..k], "macaroon=")
      invariant invoice == LastValue(parts[..k], "invoice=")
    {
      var part := parts[k];
      assert parts[..k + 1] == parts[..k] + [part];
      LastValueSnoc(parts[..k], part, "macaroon=");
      LastValueSnoc(parts[..k], part, "invoice=");
      if HasPrefix(part, "macaroon=") {
        macaroon := TrimPrefix(part, "macaroon=");
        PrefixesExclusive(part);
      } else if HasPrefix(part, "invoice=") {
        invoice := TrimPrefix(part, "invoice=");
      }
    }
    assert parts[..|parts|] == parts;
    if macaroon == "" || invoice == "" {
      return Err(Failure("macaroon or invoice not found in challenge"));
    }
    return Ok(Challenge(macaroon, invoice));
  }

  /** A scheme token followed by one `macaroon=` and one `invoice=` token
      parses to those values in either order. */
  lemma SpaceChallengeEitherOrder(scheme: string, m: string, i: string)
    requires ' ' !in scheme && ' ' !in m && ' ' !in i
    requires m != "" && i != ""
    ensures SpaceChallenge(scheme + " macaroon=" + m + " invoice=" + i) == Ok(Challenge(m, i))
    ensures SpaceChallenge(scheme + " invoice=" + i + " macaroon=" + m) == Ok(Challenge(m, i))
  {
    var mt, it := "macaroon=" + m, "invoice=" + i;
    assert scheme + " macaroon=" + m + " invoice=" + i == scheme + " " + mt + " " + it by {
      assert " macaroon=" == " " + "macaroon=" && " invoice=" == " " + "invoice=";
      SpacedTokens(scheme, "macaroon=", m, "invoice=", i);
    }
    assert scheme + " invoice=" + i + " macaroon=" + m == scheme + " " + it + " " + mt by {
      assert " macaroon=" == " " + "macaroon=" && " invoice=" == " " + "invoice=";
      SpacedTokens(scheme, "invoice=", i, "macaroon=", m);
    }
    KeyTokens(m, i);
    TokenAfterScheme(scheme, mt, it, "macaroon=");
    TokenAfterScheme(scheme, it, mt, "invoice=");
    ChallengeOfThree(scheme, mt, it, m, i);
    ChallengeOfThree(scheme, it, mt, m, i);
  }

  /** The `macaroon=` and `invoice=` tokens of space-free values are
      space-free, start with their own key only, and give the value back. */
  lemma KeyTokens(m: string, i: string)
    requires ' ' !in m && ' ' !in i
    ensures var mt, it := "macaroon=" + m, "invoice=" + i;
      && ' ' !in mt && ' ' !in it
      && HasPrefix(mt, "macaroon=") && !HasPrefix(mt, "invoice=") && TrimPrefix(mt, "macaroon=") == m
      && HasPrefix(it, "invoice=") && !HasPrefix(it, "macaroon=") && TrimPrefix(it, "invoice=") == i
  {
    var mt, it := "macaroon=" + m, "invoice=" + i;
    PrefixesExclusive(mt);
    PrefixesExclusive(it);
  }

  /** Three space-free tokens parse to the values their last `macaroon=`
      and `invoice=` tokens give. */
  lemma ChallengeOfThree(scheme: string, a: string, b: string, m: string, i: string)
    requires ' ' !in scheme && ' ' !in a && ' ' !in b && m != "" && i != ""
    requires LastValue([scheme, a, b], "macaroon=") == m && LastValue([scheme, a, b], "invoice=") == i
    ensures SpaceChallenge(scheme + " " + a + " " + b) == Ok(Challenge(m, i))
  {
    ThreePieces(scheme, a, b, " ");
  }

  /** Writing a key after its space is writing the token after a space. */
  lemma SpacedTokens(scheme: string, k1: string, v1: string, k2: string, v2: string)
    ensures scheme + (" " + k1) + v1 + (" " + k2) + v2 == scheme + " " + (k1 + v1) + " " + (k2 + v2)
  {
  }

  /** Of two tokens after the scheme, only one of which starts with `key`,
      that one gives the key's value, in either order. */
  lemma TokenAfterScheme(scheme: string, a: string, b: string, key: string)
    requires HasPrefix(a, key) && !HasPrefix(b, key)
    ensures LastValue([scheme, a, b], key) == TrimPrefix(a, key)
    ensures LastValue([scheme, b, a], key) == TrimPrefix(a, key)
  {
    LastValueSnoc([scheme], a, key);
    LastValueSnoc([scheme, a], b, key);
    LastValueSnoc([scheme, b], a, key);
    assert [scheme] + [a] == [scheme, a];
    assert [scheme, a] + [b] == [scheme, a, b] && [scheme, b] + [a] == [scheme, b, a];
  }

  /** A token appended at the end decides the key's value when it starts
      with the key, and leaves it as it was otherwise. */
  lemma LastValueSnoc(parts: seq<string>, p: string, key: string)
    ensures LastValue(parts + [p], key) == if HasPrefix(p, key) then TrimPrefix(p, key) else LastValue(parts, key)
  {
    assert (parts + [p])[..|parts|] == parts;
  }

  /** No token starts with both keys. */
  lemma PrefixesExclusive(token: string)
    ensures !(HasPrefix(token, "macaroon=") && HasPrefix(token, "invoice="))
  {
    if HasPrefix(token, "macaroon=") {
      assert token[0] == 'm';
    }
  }

  /** A `macaroon=` token appended at the end overrides every earlier one,
      while the invoice stays what the earlier tokens gave. */
  lemma {:induction false} LaterMacaroonWins(header: string, m: string)
    requires ' ' !in m && m != ""
    ensures var invoice := LastValue(Split(header, " "), "invoice=");
      SpaceChallenge(header + " macaroon=" + m)
      == if invoice == "" then Err(Failure("macaroon or invoice not found in challenge"))
         else Ok(Challenge(m, invoice))
  {
    var token := "macaroon=" + m;
    assert ' ' !in token;
    assert header + " macaroon=" + m == header + [' '] + token;
    SplitAppend(header, ' ', token);
    PrefixesExclusive(token);
    assert HasPrefix(token, "macaroon=") && TrimPrefix(token, "macaroon=") == m;
    LastValueSnoc(Split(header, " "), token, "macaroon=");
    LastValueSnoc(Split(header, " "), token, "invoice=");
  }

  // ---------------------------------------------------------------------
  // DecodePrice

  /** The network tag handed to the decoder: the lower-cased text from index
      2 up to the first digit. */
  function NetworkTag(invoice: string): (tag: string)
    requires 2 <= FirstDigit(invoice)
    ensures |tag| == FirstDigit(invoice) - 2
    ensures forall k :: 0 <= k < |tag| ==> !IsDigit(tag[k]) && tag[k] == LowerChar(invoice[k + 2])
  {
    ToLower(invoice[2..FirstDigit(invoice)])
  }

  /** uint64(int64(msat) / 1000): Go's conversion to int64 wraps amounts of
      2^63 msat and more to negative values, the division truncates toward
      zero, and the conversion back wraps again. */
  function MilliSatToSat(msat: Uint64): (sats: Uint64)
    ensures msat < 0x8000_0000_0000_0000 ==> sats == msat / 1000
  {
    var signed := if msat < 0x8000_0000_0000_0000 then msat else msat - 0x1_0000_0000_0000_0000;
    var quotient := if signed >= 0 then signed / 1000 else -((-signed) / 1000);
    if quotient >= 0 then quotient else quotient + 0x1_0000_0000_0000_0000
  }

  /** DecodePrice: the invoice's amount in whole satoshis. A price comes
      only from an invoice whose first digit follows the network prefix and
      which the decoder accepts; it is 0 without an amount and the amount
      divided by 1000, rounded down, for amounts below 2^63 msat. */
  function DecodePrice(invoice: string, zpay: ZpayDecoder): (r: Result<Uint64>)
    ensures |invoice| < 2 ==> r == Err(Failure("bolt11 too short"))
    ensures 2 <= |invoice| && FirstDigit(invoice) < 2 ==> r == Err(Failure("invalid bolt11 invoice"))
    ensures r.Ok? ==>
      2 <= FirstDigit(invoice)
      && var d := zpay(invoice, NetworkTag(invoice));
         d.Ok?
         && (d.value.None? ==> r.value == 0)
         && (d.value.Some? && d.value.value < 0x8000_0000_0000_0000 ==> r.value == d.value.value / 1000)
  {
    if |invoice| < 2 then Err(Failure("bolt11 too short"))
    else if FirstDigit(invoice) < 2 then Err(Failure("invalid bolt11 invoice"))
    else match zpay(invoice, NetworkTag(invoice))
      case Err(e) => Err(Wrapped("zpay32 decoding failed", e))
      case Ok(amount) => Ok(if amount.Some? then MilliSatToSat(amount.value) else 0)
  }

  /** An invoice shorter than two characters is too short; otherwise it is
      invalid exactly when its first decimal digit sits at index 0 or 1 or it
      has no digit at all. */
  lemma MalformedInvoices(invoice: string, zpay: ZpayDecoder)
    ensures |invoice| < 2 ==> DecodePrice(invoice, zpay) == Err(Failure("bolt11 too short"))
    ensures |invoice| >= 2 ==>
      (DecodePrice(invoice, zpay) == Err(Failure("invalid bolt11 invoice"))
       <==> IsDigit(invoice[0]) || IsDigit(invoice[1]) || forall k :: 0 <= k < |invoice| ==> !IsDigit(invoice[k]))
  {
  }

  /** A decodable invoice is priced at its amount divided by 1000, rounded
      down, and at 0 when it carries no amount; a decoder error is wrapped. */
  lemma PriceOfDecodedInvoice(invoice: string, zpay: ZpayDecoder)
    requires 2 <= FirstDigit(invoice)
    ensures zpay(invoice, NetworkTag(invoice)) == Ok(None) ==> DecodePrice(invoice, zpay) == Ok(0)
    ensures forall msat: Uint64 ::
      (msat < 0x8000_0000_0000_0000 && zpay(invoice, NetworkTag(invoice)) == Ok(Some(msat)))
      ==> DecodePrice(invoice, zpay) == Ok(msat / 1000)
    ensures zpay(invoice, NetworkTag(invoice)).Err?
      ==> DecodePrice(invoice, zpay) == Err(Wrapped("zpay32 decoding failed", zpay(invoice, NetworkTag(invoice)).error))
  {
  }

  /** 50,000,000 msat is 50,000 sat; 999 msat rounds down to 0. */
  lemma PriceExamples()
    ensures MilliSatToSat(50_000_000) == 50_000
    ensures MilliSatToSat(999) == 0
  {
  }

  /** Amounts of 2^63 msat and more do not divide: the int64 conversion wraps. */
  lemma HugeAmountWraps()
    ensures MilliSatToSat(0x8000_0000_0000_0000) == 18437520701672696841
    ensures MilliSatToSat(0xFFFF_FFFF_FFFF_FFFF) == 0
  {
  }

  // ---------------------------------------------------------------------
  // ExecuteL402Request

  /** The method http.NewRequest puts on the request: an empty one means GET. */
  function RequestMethod(verb: string): (m: string)
    ensures m != ""
    ensures verb != "" ==> m == verb
  {
    if verb == "" then "GET" else verb
  }

  /** The request first sent: the platform API key as a bearer token when set. */
  function FirstRequest(c: HttpClient, verb: string, url: string, body: Payload): Request {
    Request(RequestMethod(verb), url, if c.apiKey != "" then map["Authorization" := "Bearer " + c.apiKey] else map[], body)
  }

  /** The Authorization value that proves payment. */
  function L402Authorization(macaroon: string, preimage: string): string {
    "L402 " + macaroon + ":" + preimage
  }

  /** The same request with its Authorization header replaced. */
  function WithAuthorization(req: Request, value: string): Request {
    req.(headers := req.headers["Authorization" := value])
  }

  /** Setting Authorization changes that header only. */
  lemma AuthorizationOnly(req: Request, value: string)
    ensures var r := WithAuthorization(req, value);
      && r.verb == req.verb && r.url == req.url && r.body == req.body
      && r.headers.Keys == req.headers.Keys + {"Authorization"} && r.headers["Authorization"] == value
      && forall h :: h in req.headers && h != "Authorization" ==> r.headers[h] == req.headers[h]
  {
  }

  /** The user agrees to pay only with a trimmed answer of exactly Y or y. */
  predicate Consents(answer: string) {
    TrimSpace(answer) == "Y" || TrimSpace(answer) == "y"
  }

  // ---------------------------------------------------------------------
  // PayInvoice

  const AlbyPaymentsURL: string := "https://api.getalby.com/payments/bolt11"

  /** The POST that PayInvoice makes to Alby. */
  function PaymentRequest(token: string, invoice: string): Request {
    Request("POST", AlbyPaymentsURL,
            map["Authorization" := "Bearer " + token, "Accept" := "application/json", "Content-Type" := "application/json"],
            Json(map["invoice" := JStr(invoice)]))
  }

  /** PayInvoice's result for the transport's reply to the payment request. */
  function PaymentOutcome(reply: Reply): Result<string> {
    match reply
    case Unreachable(e) => Err(Wrapped("unable to send request", e))
    case Delivered(resp) =>
      if resp.status != StatusOK then Err(Failure("unexpected status code: " + IntDecimal(resp.status)))
      else match resp.json
        case None => Err(Wrapped("unable to parse response body", External("encoding/json")))
        case Some(fields) => Ok(JsonField(fields, "payment_preimage"))
  }

  /** A preimage comes back only from a 200 whose body decodes, and it is
      the body's payment_preimage field verbatim, possibly empty; any other
      status is an error naming the status. */
  lemma PaymentOutcomeCases(reply: Reply)
    ensures PaymentOutcome(reply).Ok?
      <==> reply.Delivered? && reply.response.status == StatusOK && reply.response.json.Some?
    ensures PaymentOutcome(reply).Ok?
      ==> PaymentOutcome(reply).value == JsonField(reply.response.json.value, "payment_preimage")
    ensures reply.Delivered? && reply.response.status != StatusOK
      ==> PaymentOutcome(reply) == Err(Failure("unexpected status code: " + IntDecimal(reply.response.status)))
  {
  }

  /** PayInvoice: pays the invoice through the Alby account of `token`. */
  method PayInvoice(token: string, invoice: string, ports: Ports) returns (preimage: Result<string>)
    modifies ports`replies, ports`sent
    ensures preimage == PaymentOutcome(NextReply(old(ports.replies)))
    ensures ports.sent == old(ports.sent) + [PaymentRequest(token, invoice)]
    ensures ports.replies == Consumed(old(ports.replies), 1)
  {
    var reply := ports.Send(PaymentRequest(token, invoice));
    if reply.Unreachable? {
      return Err(Wrapped("unable to send request", reply.cause));
    }
    if reply.response.status != StatusOK {
      return Err(Failure("unexpected status code: " + IntDecimal(reply.response.status)));
    }
    if reply.response.json.None? {
      return Err(Wrapped("unable to parse response body", External("encoding/json")));
    }
    return Ok(JsonField(reply.response.json.value, "payment_preimage"));
  }

  // ---------------------------------------------------------------------
  // ExecuteL402Request

  /** What one call does: its result, the requests handed to the transport
      (the payment included) and the input lines consumed. */
  datatype Trace = Trace(result: Result<Response>, sent: seq<Request>, linesRead: nat)

  const InputError: Error := Wrapped("unable to read user input", EndOfInput)

  /** The executor's behaviour as a function of the scripted ports. */
  function Exchange(c: HttpClient, verb: string, url: string, body: Payload, lib: Library,
                    replies: seq<Reply>, lines: seq<string>): Trace
  {
    if !lib.newRequestOk(verb, url) then
      Trace(Err(Wrapped("unable to create request", External("net/http.NewRequest"))), [], 0)
    else
      var req := FirstRequest(c, verb, url, body);
      var t := Proceed(c, lib, Replied(req, NextReply(replies)), Consumed(replies, 1), lines);
      Trace(t.result, [req] + t.sent, t.linesRead)
  }

  /** Where the executor stands after the first request has been sent. */
  datatype Stage =
    | Replied(req: Request, reply: Reply)       // the first reply is in
    | Challenged(req: Request, resp: Response)  // it was a 402
    | Priced(req: Request, ch: Challenge)       // challenge parsed and invoice priced

  function Remaining(stage: Stage): nat {
    match stage
    case Replied(_, _) => 2
    case Challenged(_, _) => 1
    case Priced(_, _) => 0
  }

  /** The rest of the call from `stage`, over the remaining replies and
      input lines. The trace lists only the requests sent from there on. */
  function Proceed(c: HttpClient, lib: Library, stage: Stage, replies: seq<Reply>, lines: seq<string>): Trace
    decreases Remaining(stage)
  {
    match stage
    case Replied(req, reply) =>
      (match reply
       case Unreachable(e) => Trace(Err(Wrapped("unable to execute request", e)), [], 0)
       case Delivered(resp) =>
         if resp.status != StatusPaymentRequired then Trace(Ok(resp), [], 0)
         else Proceed(c, lib, Challenged(req, resp), replies, lines))
    case Challenged(req, resp) =>
      if NextLine(lines).Err? then Trace(Err(InputError), [], 0)
      else
        (match SpaceChallenge(HeaderValue(resp.headers, AuthenticateHeader))
         case Err(e) => Trace(Err(Wrapped("unable to parse L402 challenge", e)), [], 1)
         case Ok(ch) =>
           match DecodePrice(ch.invoice, lib.zpayDecode)
           case Err(e) => Trace(Err(Wrapped("unable to decode invoice price", e)), [], 1)
           case Ok(_) =>
             var t := Proceed(c, lib, Priced(req, ch), replies, lines[1..]);
             Trace(t.result, t.sent, 1 + t.linesRead))
    case Priced(req, ch) =>
      if NextLine(lines).Err? then Trace(Err(InputError), [], 0)
      else if !Consents(lines[0]) then Trace(Err(Failure("user chose not to continue")), [], 1)
      else
        var t := Settle(c, req, ch, replies);
        Trace(t.result, t.sent, 1)
  }

  /** The payment of the challenge's invoice and, once paid, the resend of
      the request with the L402 proof; no input is read. */
  function Settle(c: HttpClient, req: Request, ch: Challenge, replies: seq<Reply>): Trace {
    var payment := PaymentRequest(c.albyToken, ch.invoice);
    match PaymentOutcome(NextReply(replies))
    case Err(e) => Trace(Err(Wrapped("unable to pay invoice", e)), [payment], 0)
    case Ok(preimage) =>
      var retry := WithAuthorization(req, L402Authorization(ch.macaroon, preimage));
      var result := match NextReply(Consumed(replies, 1))
        case Unreachable(e) => Err(Wrapped("unable to execute request", e))
        case Delivered(final) => Ok(final);
      Trace(result, [payment, retry], 0)
  }

  /** Ports holding (`replies`, `lines`, `sent`) advance, as trace `t`
      says, to (`replies'`, `lines'`, `sent'`). */
  predicate Advanced(t: Trace, replies: seq<Reply>, lines: seq<string>, sent: seq<Request>,
                     replies': seq<Reply>, lines': seq<string>, sent': seq<Request>)
  {
    && sent' == sent + t.sent
    && replies' == Consumed(replies, |t.sent|)
    && lines' == Consumed(lines, t.linesRead)
  }

  /** ExecuteL402Request over the ports. */
  method ExecuteL402Request(c: HttpClient, verb: string, url: string, body: Payload, lib: Library, ports: Ports)
    returns (r: Result<Response>)
    modifies ports
    ensures var t := Exchange(c, verb, url, body, lib, old(ports.replies), old(ports.lines));
      r == t.result && Advanced(t, old(ports.replies), old(ports.lines), old(ports.sent), ports.replies, ports.lines, ports.sent)
  {
    if !lib.newRequestOk(verb, url) {
      return Err(Wrapped("unable to create request", External("net/http.NewRequest")));
    }
    r := SendFirst(c, lib, FirstRequest(c, verb, url, body), ports);
  }

  /** The part of ExecuteL402Request from sending the first request on. */
  method SendFirst(c: HttpClient, lib: Library, req: Request, ports: Ports) returns (r: Result<Response>)
    modifies ports
    ensures var t := Proceed(c, lib, Replied(req, NextReply(old(ports.replies))), Consumed(old(ports.replies), 1), old(ports.lines));
      var full := Trace(t.result, [req] + t.sent, t.linesRead);
      r == full.result && Advanced(full, old(ports.replies), old(ports.lines), old(ports.sent), ports.replies, ports.lines, ports.sent)
  {
    var reply := ports.Send(req);
    ghost var t := Proceed(c, lib, Replied(req, reply), ports.replies, ports.lines);
    ghost var sent1 := ports.sent;
    r := HandleReply(c, lib, req, reply, ports);
    ConsumedTwice(old(ports.replies), 1, |t.sent|);
    assert ports.sent == old(ports.sent) + ([req] + t.sent) by {
      assert ports.sent == sent1 + t.sent && sent1 == old(ports.sent) + [req];
    }
  }

  /** The part of ExecuteL402Request after the first reply. */
  method HandleReply(c: HttpClient, lib: Library, req: Request, reply: Reply, ports: Ports)
    returns (r: Result<Response>)
    modifies ports
    ensures var t := Proceed(c, lib, Replied(req, reply), old(ports.replies), old(ports.lines));
      r == t.result && Advanced(t, old(ports.replies), old(ports.lines), old(ports.sent), ports.replies, ports.lines, ports.sent)
  {
    if reply.Unreachable? {
      return Err(Wrapped("unable to execute request", reply.cause));
    }
    var resp := reply.response;
    if resp.status > 200 && resp.status < 300 {
      return Ok(resp);
    }
    if resp.status != StatusPaymentRequired {
      return Ok(resp);
    }
    r := AnswerChallenge(c, lib, req, resp, ports);
  }

  /** The part of ExecuteL402Request after a 402 reply. */
  method AnswerChallenge(c: HttpClient, lib: Library, req: Request, resp: Response, ports: Ports)
    returns (r: Result<Response>)
    modifies ports
    ensures var t := Proceed(c, lib, Challenged(req, resp), old(ports.replies), old(ports.lines));
      r == t.result && Advanced(t, old(ports.replies), old(ports.lines), old(ports.sent), ports.replies, ports.lines, ports.sent)
  {
    var discarded := ports.ReadLine();
    if discarded.Err? {
      return Err(Wrapped("unable to read user input", discarded.error));
    }
    var challenge := ParseL402Challenge(resp);
    if challenge.Err? {
      return Err(Wrapped("unable to parse L402 challenge", challenge.error));
    }
    var price := DecodePrice(challenge.value.invoice, lib.zpayDecode);
    if price.Err? {
      return Err(Wrapped("unable to decode invoice price", price.error));
    }
    ghost var lines1 := ports.lines;
    r := AskPayResend(c, lib, req, challenge.value, ports);
    ghost var t := Proceed(c, lib, Priced(req, challenge.value), old(ports.replies), lines1);
    ConsumedTwice(old(ports.lines), 1, t.linesRead);
  }

  /** The part of ExecuteL402Request after the price is known. */
  method AskPayResend(c: HttpClient, lib: Library, req: Request, ch: Challenge, ports: Ports)
    returns (r: Result<Response>)
    modifies ports
    ensures var t := Proceed(c, lib, Priced(req, ch), old(ports.replies), old(ports.lines));
      r == t.result && Advanced(t, old(ports.replies), old(ports.lines), old(ports.sent), ports.replies, ports.lines, ports.sent)
  {
    var answer := ports.ReadLine();
    if answer.Err? {
      return Err(Wrapped("unable to read user input", answer.error));
    }
    var input := TrimSpace(answer.value);
    if input != "Y" && input != "y" {
      return Err(Failure("user chose not to continue"));
    }
    r := PayAndResend(c, req, ch, ports);
  }

  /** The part of ExecuteL402Request after the user's consent. */
  method PayAndResend(c: HttpClient, req: Request, ch: Challenge, ports: Ports) returns (r: Result<Response>)
    modifies ports`replies, ports`sent
    ensures var t := Settle(c, req, ch, old(ports.replies));
      r == t.result && Advanced(t, old(ports.replies), ports.lines, old(ports.sent), ports.replies, ports.lines, ports.sent)
  {
    var preimage := PayInvoice(c.albyToken, ch.invoice, ports);
    if preimage.Err? {
      return Err(Wrapped("unable to pay invoice", preimage.error));
    }
    var retry := WithAuthorization(req, L402Authorization(ch.macaroon, preimage.value));
    var reply := ports.Send(retry);
    ConsumedTwice(old(ports.replies), 1, 1);
    if reply.Unreachable? {
      return Err(Wrapped("unable to execute request", reply.cause));
    }
    return Ok(reply.response);
  }

  // ---------------------------------------------------------------------
  // ExecuteRequest

  /** Whether ExecuteRequest gets as far as sending: the request for the
      path on the API domain can be built. */
  predicate Builds(c: HttpClient, verb: string, path: string, lib: Library) {
    lib.newRequestOk(verb, c.domain + path)
  }

  /** ExecuteRequest's result for the transport's replies. */
  function Executed(c: HttpClient, verb: string, path: string, lib: Library, replies: seq<Reply>): Result<Response> {
    if !Builds(c, verb, path, lib) then Err(Wrapped("unable to create request", External("net/http.NewRequest")))
    else match NextReply(replies)
      case Unreachable(e) => Err(Wrapped("unable to execute request", e))
      case Delivered(resp) => Ok(resp)
  }

  /** ExecuteRequest: one request to `path` on the API domain, carrying the
      API key as a bearer token when set; no 402 handling. */
  method ExecuteRequest(c: HttpClient, verb: string, path: string, body: Payload, lib: Library, ports: Ports)
    returns (r: Result<Response>)
    modifies ports`replies, ports`sent
    ensures r == Executed(c, verb, path, lib, old(ports.replies))
    ensures Builds(c, verb, path, lib) ==>
      ports.sent == old(ports.sent) + [FirstRequest(c, verb, c.domain + path, body)]
      && ports.replies == Consumed(old(ports.replies), 1)
    ensures !Builds(c, verb, path, lib) ==> ports.sent == old(ports.sent) && ports.replies == old(ports.replies)
  {
    var url := c.domain + path;
    if !lib.newRequestOk(verb, url) {
      return Err(Wrapped("unable to create request", External("net/http.NewRequest")));
    }
    var reply := ports.Send(FirstRequest(c, verb, url, body));
    if reply.Unreachable? {
      return Err(Wrapped("unable to execute request", reply.cause));
    }
    return Ok(reply.response);
  }

  /** ExecuteRequest hands back every delivered response, a 402 included,
      and on every reply that is not a 402 it behaves as ExecuteL402Request
      on the same URL: same result, same single request, no input read. */
  lemma ExecuteRequestAsL402(c: HttpClient, verb: string, path: string, body: Payload, lib: Library,
                             replies: seq<Reply>, lines: seq<string>)
    ensures Builds(c, verb, path, lib) && NextReply(replies).Delivered? ==>
      Executed(c, verb, path, lib, replies) == Ok(NextReply(replies).response)
    ensures !(NextReply(replies).Delivered? && NextReply(replies).response.status == StatusPaymentRequired) ==>
      var t := Exchange(c, verb, c.domain + path, body, lib, replies, lines);
      && t.result == Executed(c, verb, path, lib, replies)
      && t.sent == (if Builds(c, verb, path, lib) then [FirstRequest(c, verb, c.domain + path, body)] else [])
      && t.linesRead == 0
  {
  }

  // ---------------------------------------------------------------------
  // Properties of the executor

  /** The first reply was a 402 whose challenge parses and whose invoice
      prices, and a line was there to discard. */
  predicate PricedChallenge(lib: Library, replies: seq<Reply>, lines: seq<string>) {
    && replies != [] && replies[0].Delivered?
    && replies[0].response.status == StatusPaymentRequired
    && NextLine(lines).Ok?
    && var ch := SpaceChallenge(HeaderValue(replies[0].response.headers, AuthenticateHeader));
    && ch.Ok?
    && DecodePrice(ch.value.invoice, lib.zpayDecode).Ok?
  }

  /** The challenge of the first reply, when it parses. */
  function FirstChallenge(replies: seq<Reply>): Challenge
    requires replies != [] && replies[0].Delivered?
    requires SpaceChallenge(HeaderValue(replies[0].response.headers, AuthenticateHeader)).Ok?
  {
    SpaceChallenge(HeaderValue(replies[0].response.headers, AuthenticateHeader)).value
  }

  /** Short of a priced challenge, one request goes out and at most one
      line is read. */
  lemma {:induction false} UnpricedEndsEarly(c: HttpClient, verb: string, url: string, body: Payload, lib: Library,
                                             replies: seq<Reply>, lines: seq<string>)
    requires !PricedChallenge(lib, replies, lines)
    ensures var t := Exchange(c, verb, url, body, lib, replies, lines);
      |t.sent| <= 1 && t.linesRead <= 1 && t.linesRead <= |lines|
  {
    if lib.newRequestOk(verb, url) && replies != [] && replies[0].Delivered?
       && replies[0].response.status == StatusPaymentRequired {
      var req := FirstRequest(c, verb, url, body);
      assert Proceed(c, lib, Replied(req, replies[0]), Consumed(replies, 1), lines)
          == Proceed(c, lib, Challenged(req, replies[0].response), Consumed(replies, 1), lines);
    }
  }

  /** With a priced challenge, the rest of the call is the Priced stage over
      the lines after the discarded one. */
  lemma {:induction false} PricedContinues(c: HttpClient, verb: string, url: string, body: Payload, lib: Library,
                                           replies: seq<Reply>, lines: seq<string>)
    requires lib.newRequestOk(verb, url) && PricedChallenge(lib, replies, lines)
    ensures var req := FirstRequest(c, verb, url, body);
      var t := Proceed(c, lib, Priced(req, FirstChallenge(replies)), replies[1..], lines[1..]);
      Exchange(c, verb, url, body, lib, replies, lines) == Trace(t.result, [req] + t.sent, 1 + t.linesRead)
  {
    var req := FirstRequest(c, verb, url, body);
    assert Proceed(c, lib, Replied(req, replies[0]), Consumed(replies, 1), lines)
        == Proceed(c, lib, Challenged(req, replies[0].response), replies[1..], lines);
  }

  /** A response other than 402 is returned as it is, after one request,
      without reading input or paying. */
  lemma NonPaymentStatusPassesThrough(c: HttpClient, verb: string, url: string, body: Payload, lib: Library,
                                      replies: seq<Reply>, lines: seq<string>)
    requires lib.newRequestOk(verb, url)
    requires replies != [] && replies[0].Delivered? && replies[0].response.status != StatusPaymentRequired
    ensures Exchange(c, verb, url, body, lib, replies, lines)
         == Trace(Ok(replies[0].response), [FirstRequest(c, verb, url, body)], 0)
  {
  }

  /** At most three requests go out and at most two lines are read. A
      second request, the payment, is made only after a 402 whose challenge
      parsed and priced and whose confirmation line trims to Y or y; it pays
      the challenge's invoice with the Alby token. */
  lemma {:induction false} PaymentOnlyAfterConsent(c: HttpClient, verb: string, url: string, body: Payload,
                                                   lib: Library, replies: seq<Reply>, lines: seq<string>)
    ensures var t := Exchange(c, verb, url, body, lib, replies, lines);
      && |t.sent| <= 3 && t.linesRead <= 2 && t.linesRead <= |lines|
      && (|t.sent| >= 2 ==>
            && PricedChallenge(lib, replies, lines)
            && |lines| >= 2 && Terminated(lines[1]) && Consents(lines[1])
            && t.sent[1] == PaymentRequest(c.albyToken, FirstChallenge(replies).invoice))
  {
    if lib.newRequestOk(verb, url) && PricedChallenge(lib, replies, lines) {
      PricedContinues(c, verb, url, body, lib, replies, lines);
    } else if lib.newRequestOk(verb, url) {
      UnpricedEndsEarly(c, verb, url, body, lib, replies, lines);
    }
  }

  /** An answer other than Y or y (an empty line included) aborts before
      any payment, after the single original request. */
  lemma {:induction false} DeclineNeverPays(c: HttpClient, verb: string, url: string, body: Payload, lib: Library,
                                            replies: seq<Reply>, lines: seq<string>)
    requires lib.newRequestOk(verb, url) && PricedChallenge(lib, replies, lines)
    requires |lines| >= 2 && Terminated(lines[1]) && !Consents(lines[1])
    ensures var t := Exchange(c, verb, url, body, lib, replies, lines);
      t.result == Err(Failure("user chose not to continue")) && |t.sent| == 1 && t.linesRead == 2
  {
    PricedContinues(c, verb, url, body, lib, replies, lines);
  }

  /** After consent the payment goes out. The resend happens exactly when
      the payment succeeded: it is the original request with Authorization
      replaced by the L402 proof, and its reply is the result whatever its
      status. A payment error ends the call without a resend. */
  lemma {:induction false} RetryOnlyAfterPayment(c: HttpClient, verb: string, url: string, body: Payload,
                                                 lib: Library, replies: seq<Reply>, lines: seq<string>)
    requires lib.newRequestOk(verb, url) && PricedChallenge(lib, replies, lines)
    requires |lines| >= 2 && Terminated(lines[1]) && Consents(lines[1])
    ensures var t := Exchange(c, verb, url, body, lib, replies, lines);
      var outcome := PaymentOutcome(NextReply(replies[1..]));
      && t.linesRead == 2
      && (outcome.Err? ==> |t.sent| == 2 && t.result == Err(Wrapped("unable to pay invoice", outcome.error)))
      && (outcome.Ok? ==>
            && |t.sent| == 3
            && t.sent[2] == WithAuthorization(t.sent[0], L402Authorization(FirstChallenge(replies).macaroon, outcome.value))
            && (NextReply(Consumed(replies, 2)).Delivered? ==> t.result == Ok(NextReply(Consumed(replies, 2)).response)))
  {
    PricedContinues(c, verb, url, body, lib, replies, lines);
    ConsumedTwice(replies, 1, 1);
  }

  /** A "y" line with its newline is consent. */
  lemma ConsentExamples()
    ensures Consents("y\n")
  {
    assert TrimLeftBy("y\n", IsSpace) == "y\n";
    assert TrimRightBy("y", IsSpace) == "y";
    assert TrimRightBy("y\n", IsSpace) == TrimRightBy("y", IsSpace);
  }

  /** An empty line is not consent. */
  lemma EmptyLineRefuses()
    ensures !Consents("\n")
  {
    assert TrimLeftBy("\n", IsSpace) == TrimLeftBy("", IsSpace) == "";
  }

  /** A confirmation that ends the input without its newline is a read
      error, whatever it says: the call fails after the single original
      request and nothing is paid. */
  lemma {:induction false} UnterminatedAnswerRefused(c: HttpClient, verb: string, url: string, body: Payload,
                                                     lib: Library, replies: seq<Reply>, lines: seq<string>)
    requires lib.newRequestOk(verb, url) && PricedChallenge(lib, replies, lines)
    requires |lines| < 2 || !Terminated(lines[1])
    ensures var t := Exchange(c, verb, url, body, lib, replies, lines);
      t.result == Err(InputError) && |t.sent| == 1 && t.linesRead == 1
  {
    PricedContinues(c, verb, url, body, lib, replies, lines);
  }

  /** A "y" without its newline, as the last thing on the input, is not
      read as an answer. */
  lemma UnterminatedYesIsNoAnswer()
    ensures NextLine(["y"]) == Err(EndOfInput)
    ensures NextLine(["y\n"]) == Ok("y\n")
  {
  }

  /** "yes" is not consent: only a single Y or y is. */
  lemma YesRefuses()
    ensures !Consents("yes\n")
  {
    var line := "yes\n";
    assert !IsSpace('y') && !IsSpace('s') && IsSpace('\n');
    assert TrimLeftBy(line, IsSpace) == line;
    assert line[..3] == "yes";
    assert TrimRightBy("yes", IsSpace) == "yes";
    assert TrimSpace(line) == "yes";
  }
}
