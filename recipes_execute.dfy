/** recipes/execute.go: the `recipes execute` command, which posts the data
    pairs to a recipe, pays the L402 invoice it is answered with through
    Alby without asking, and resends with an LSAT authorization. */
module RecipesExecute {
  import opened Errors
  import opened Strs
  import opened Http
  import opened MacaroonsPairs
  import Client

  const BaseURL: string := "https://api.fewsats.com/v0"
  const AlbyURL: string := "https://api.getalby.com"
  const ContentTypeJson: string := "application/json"

  // ---------------------------------------------------------------------
  // extractInvoiceAndMacaroon

  predicate IsQuote(c: char) {
    c == '"'
  }

  /** strings.Trim(s, "\"") */
  function Unquote(s: string): string {
    TrimBy(s, IsQuote)
  }

  /** The unquoted text after `key` in the last part that starts with it,
      or "" when none does. */
  function LastField(parts: seq<string>, key: string): string {
    if |parts| == 0 then ""
    else if HasPrefix(parts[|parts| - 1], key) then Unquote(TrimPrefix(parts[|parts| - 1], key))
    else LastField(parts[..|parts| - 1], key)
  }

  const ExtractError: Error := Failure("could not extract invoice and macaroon from header")

  /** What extractInvoiceAndMacaroon gives: (invoice, macaroon), in that
      order. Go's header[5:] panics on a shorter header. */
  function Extraction(header: string): Result<(string, string)> {
    if |header| < 5 then Err(Panic("slice bounds out of range"))
    else
      var parts := Split(header[5..], ", ");
      var invoice := LastField(parts, "invoice=");
      var macaroon := LastField(parts, "macaroon=");
      if invoice == "" || macaroon == "" then Err(ExtractError)
      else Ok((invoice, macaroon))
  }

  /** extractInvoiceAndMacaroon */
  method ExtractInvoiceAndMacaroon(header: string) returns (r: Result<(string, string)>)
    ensures r == Extraction(header)
  {
    if |header| < 5 {
      return Err(Panic("slice bounds out of range"));
    }
    var parts := Split(header[5..], ", ");
    var invoice, macaroon := "", "";
    for k := 0 to |parts|
      invariant invoice == LastField(parts[..k], "invoice=")
      invariant macaroon == LastField(parts[..k], "macaroon=")
    {
      var part := parts[k];
      assert parts[..k + 1] == parts[..k] + [part];
      LastFieldSnoc(parts[..k], part, "invoice=");
      LastFieldSnoc(parts[..k], part, "macaroon=");
      if HasPrefix(part, "invoice=") {
        invoice := Unquote(TrimPrefix(part, "invoice="));
        Client.PrefixesExclusive(part);
      } else if HasPrefix(part, "macaroon=") {
        macaroon := Unquote(TrimPrefix(part, "macaroon="));
      }
    }
    assert parts[..|parts|] == parts;
    if invoice == "" || macaroon == "" {
      return Err(ExtractError);
    }
    return Ok((invoice, macaroon));
  }

  // ---------------------------------------------------------------------
  // Data pairs

  /** The data map: each pair split at its first `=`, pairs without one
      dropped, a later key overriding an earlier one. */
  function DataMap(pairs: seq<string>): map<string, string>
    decreases |pairs|
  {
    if pairs == [] then map[]
    else
      var last := pairs[|pairs| - 1];
      var m := DataMap(pairs[..|pairs| - 1]);
      if '=' in last then m[KeyOf(last) := ValueOf(last)] else m
  }

  /** executeCodeRecipe's loop over the data pairs. */
  method BuildDataMap(pairs: seq<string>) returns (m: map<string, string>)
    ensures m == DataMap(pairs)
  {
    m := map[];
    for i := 0 to |pairs|
      invariant m == DataMap(pairs[..i])
    {
      var pair := pairs[i];
      assert pairs[..i + 1][..i] == pairs[..i];
      var c := Cut(pair, '=');
      if c.found {
        m := m[c.before := c.after];
      }
    }
    assert pairs[..|pairs|] == pairs;
  }

  /** The pairs that contain `=`, in order. */
  function WellFormed(pairs: seq<string>): (r: seq<string>)
    ensures forall i | 0 <= i < |r| :: '=' in r[i]
  {
    if pairs == [] then []
    else if '=' in pairs[|pairs| - 1] then WellFormed(pairs[..|pairs| - 1]) + [pairs[|pairs| - 1]]
    else WellFormed(pairs[..|pairs| - 1])
  }

  /** The data map is what the strict caveat parser builds from the pairs
      that contain `=`: malformed pairs are dropped silently instead of
      failing, and the last duplicate wins in both. */
  lemma {:induction false} DataMapDropsMalformed(pairs: seq<string>)
    ensures Pairs(WellFormed(pairs), "data").Ok?
    ensures DataMap(pairs) == Pairs(WellFormed(pairs), "data").value
    decreases |pairs|
  {
    if pairs != [] {
      var init := pairs[..|pairs| - 1];
      var last := pairs[|pairs| - 1];
      DataMapDropsMalformed(init);
      if '=' in last {
        var w := WellFormed(init) + [last];
        assert w[..|w| - 1] == WellFormed(init);
      }
    }
  }

  // ---------------------------------------------------------------------
  // payInvoice

  /** The POST that payInvoice makes. */
  function RecipePaymentRequest(token: string, invoice: string): Request {
    Request("POST", AlbyURL + "/payments/bolt11",
            map["Content-Type" := ContentTypeJson, "Authorization" := "Bearer " + token],
            Json(map["invoice" := JStr(invoice)]))
  }

  /** payInvoice's result: the status is never looked at. */
  function RecipePaymentOutcome(reply: Reply): Result<string> {
    match reply
    case Unreachable(e) => Err(e)
    case Delivered(resp) =>
      match resp.json
      case None => Err(External("encoding/json"))
      case Some(fields) => Ok(JsonField(fields, "payment_preimage"))
  }

  /** payInvoice */
  method PayInvoice(token: string, invoice: string, ports: Ports) returns (r: Result<string>)
    modifies ports`replies, ports`sent
    ensures r == RecipePaymentOutcome(NextReply(old(ports.replies)))
    ensures ports.sent == old(ports.sent) + [RecipePaymentRequest(token, invoice)]
    ensures ports.replies == Consumed(old(ports.replies), 1)
  {
    var reply := ports.Send(RecipePaymentRequest(token, invoice));
    if reply.Unreachable? {
      return Err(reply.cause);
    }
    if reply.response.json.None? {
      return Err(External("encoding/json"));
    }
    return Ok(JsonField(reply.response.json.value, "payment_preimage"));
  }

  /** Unlike the L402 client's payment, any decodable reply yields a
      preimage, whatever its status; on a 200 the two agree. */
  lemma PaymentIgnoresStatus(reply: Reply)
    ensures RecipePaymentOutcome(reply).Ok? <==> reply.Delivered? && reply.response.json.Some?
    ensures reply.Delivered? && reply.response.status == StatusOK && reply.response.json.Some? ==>
      RecipePaymentOutcome(reply) == Client.PaymentOutcome(reply)
    ensures reply.Delivered? && reply.response.status != StatusOK && reply.response.json.Some? ==>
      RecipePaymentOutcome(reply).Ok? && Client.PaymentOutcome(reply).Err?
  {
  }

  // ---------------------------------------------------------------------
  // executeCodeRecipe

  /** The recipe's execute URL. */
  function RecipeURL(recipeID: string): string {
    BaseURL + "/recipes/" + recipeID + "/execute"
  }

  /** The first POST (http.Post sets only the content type). */
  function FirstPost(recipeID: string, pairs: seq<string>): Request {
    Request("POST", RecipeURL(recipeID), map["Content-Type" := ContentTypeJson], Json(JsonStrings(DataMap(pairs))))
  }

  /** The resend, carrying only the LSAT authorization. It is built on the
      buffer the first POST has already read to its end, so it goes out
      with an empty body. */
  function FinalPost(recipeID: string, macaroon: string, preimage: string): Request {
    Request("POST", RecipeURL(recipeID), map["Authorization" := "LSAT " + macaroon + ":" + preimage], NoBody)
  }

  /** A map of strings as a JSON object of string members. */
  function JsonStrings(m: map<string, string>): map<string, JsonValue> {
    map k | k in m :: JStr(m[k])
  }

  /** What one run does: its result and every request it sent. */
  datatype Run = Run(result: Result<map<string, string>>, sent: seq<Request>)

  /** executeCodeRecipe over the scripted replies. */
  function RecipeRun(recipeID: string, pairs: seq<string>, token: string, lib: Client.Library, replies: seq<Reply>): Run {
    var first := FirstPost(recipeID, pairs);
    if !lib.newRequestOk("POST", RecipeURL(recipeID)) then Run(Err(External("net/http.NewRequest")), [])
    else match NextReply(replies)
      case Unreachable(e) => Run(Err(e), [first])
      case Delivered(resp) =>
        if resp.status != StatusPaymentRequired then
          Run(Err(Failure("unexpected status code: " + IntDecimal(resp.status) + " instead of 402")), [first])
        else match Extraction(HeaderValue(resp.headers, Client.AuthenticateHeader))
          case Err(e) =>
            Run(if e.Panic? then Err(e) else Err(Wrapped("could not extract invoice and macaroon", e)), [first])
          case Ok((invoice, macaroon)) =>
            var payment := RecipePaymentRequest(token, invoice);
            match RecipePaymentOutcome(NextReply(Consumed(replies, 1)))
            case Err(e) => Run(Err(Wrapped("unable to pay invoice", e)), [first, payment])
            case Ok(preimage) =>
              var final := FinalPost(recipeID, macaroon, preimage);
              var result := match NextReply(Consumed(replies, 2))
                case Unreachable(e) => Err(e)
                case Delivered(r) => if r.json.None? then Err(External("encoding/json")) else Ok(r.json.value);
              Run(result, [first, payment, final])
  }

  /** executeCodeRecipe, given its three flags. */
  method ExecuteCodeRecipe(recipeID: string, pairs: seq<string>, token: string, lib: Client.Library, ports: Ports)
    returns (r: Result<map<string, string>>)
    modifies ports`replies, ports`sent
    ensures var run := RecipeRun(recipeID, pairs, token, lib, old(ports.replies));
      && r == run.result
      && ports.sent == old(ports.sent) + run.sent
      && ports.replies == Consumed(old(ports.replies), |run.sent|)
  {
    var dataMap := BuildDataMap(pairs);
    var url := RecipeURL(recipeID);
    if !lib.newRequestOk("POST", url) {
      return Err(External("net/http.NewRequest"));
    }
    var body := Json(JsonStrings(dataMap));
    var reply := ports.Send(Request("POST", url, map["Content-Type" := ContentTypeJson], body));
    if reply.Unreachable? {
      return Err(reply.cause);
    }
    var resp := reply.response;
    if resp.status != StatusPaymentRequired {
      return Err(Failure("unexpected status code: " + IntDecimal(resp.status) + " instead of 402"));
    }
    var extracted := ExtractInvoiceAndMacaroon(HeaderValue(resp.headers, Client.AuthenticateHeader));
    if extracted.Err? {
      if extracted.error.Panic? {
        return Err(extracted.error);
      }
      return Err(Wrapped("could not extract invoice and macaroon", extracted.error));
    }
    var (invoice, macaroon) := extracted.value;
    var preimage := PayInvoice(token, invoice, ports);
    if preimage.Err? {
      return Err(Wrapped("unable to pay invoice", preimage.error));
    }
    var final := ports.Send(Request("POST", url, map["Authorization" := "LSAT " + macaroon + ":" + preimage.value], NoBody));
    ConsumedTwice(old(ports.replies), 1, 1);
    ConsumedTwice(old(ports.replies), 2, 1);
    if final.Unreachable? {
      return Err(final.cause);
    }
    if final.response.json.None? {
      return Err(External("encoding/json"));
    }
    r := Ok(final.response.json.value);
  }

  // ---------------------------------------------------------------------
  // Properties

  /** `v` in double quotes. */
  function Quoted(v: string): string {
    "\"" + v + "\""
  }

  /** A header part `key"v"`. */
  function Part(key: string, v: string): string {
    key + Quoted(v)
  }

  /** Quotes around a quote-free value are trimmed off. */
  lemma UnquoteQuoted(v: string)
    requires v != "" && '"' !in v
    ensures Unquote(Quoted(v)) == v
  {
    var s := Quoted(v);
    assert s[1..] == v + "\"";
    assert TrimLeftBy(s, IsQuote) == TrimLeftBy(v + "\"", IsQuote) == v + "\"";
    assert (v + "\"")[..|v|] == v;
    assert TrimRightBy(v + "\"", IsQuote) == TrimRightBy(v, IsQuote) == v;
  }

  /** A part's value is what follows its key, unquoted. */
  lemma PartValue(key: string, v: string)
    requires v != "" && '"' !in v
    ensures HasPrefix(Part(key, v), key) && Unquote(TrimPrefix(Part(key, v), key)) == v
  {
    assert Part(key, v)[..|key|] == key;
    assert Part(key, v)[|key|..] == Quoted(v);
    UnquoteQuoted(v);
  }

  /** The header the recipe server sends, with any five-character scheme
      and the parts `invoice="…"` and `macaroon="…"` in either order,
      yields (invoice, macaroon). */
  lemma ExtractEitherOrder(scheme: string, invoice: string, macaroon: string)
    requires |scheme| == 5
    requires invoice != "" && macaroon != ""
    requires '"' !in invoice && '"' !in macaroon && ',' !in invoice && ',' !in macaroon
    ensures Extraction(scheme + Part("invoice=", invoice) + ", " + Part("macaroon=", macaroon)) == Ok((invoice, macaroon))
    ensures Extraction(scheme + Part("macaroon=", macaroon) + ", " + Part("invoice=", invoice)) == Ok((invoice, macaroon))
  {
    var a := Part("invoice=", invoice);
    var b := Part("macaroon=", macaroon);
    PartValue("invoice=", invoice);
    PartValue("macaroon=", macaroon);
    Client.PrefixesExclusive(a);
    Client.PrefixesExclusive(b);
    KeyPartsCommaFree(invoice, macaroon);
    LastOfTwo(a, b, "invoice=", invoice);
    LastOfTwo(b, a, "macaroon=", macaroon);
    ExtractTwo(scheme, a, b, invoice, macaroon);
    ExtractTwo(scheme, b, a, invoice, macaroon);
  }

  /** Comma-free values make comma-free parts under either key. */
  lemma KeyPartsCommaFree(invoice: string, macaroon: string)
    requires ',' !in invoice && ',' !in macaroon
    ensures ',' !in Part("invoice=", invoice) && ',' !in Part("macaroon=", macaroon)
  {
  }

  /** Of two parts, only one of which starts with `key`, that one gives
      the key's field, in either order. */
  lemma LastOfTwo(a: string, b: string, key: string, v: string)
    requires HasPrefix(a, key) && Unquote(TrimPrefix(a, key)) == v && !HasPrefix(b, key)
    ensures LastField([a, b], key) == v && LastField([b, a], key) == v
  {
    LastFieldSnoc([], a, key);
    LastFieldSnoc([], b, key);
    assert [] + [a] == [a] && [] + [b] == [b];
    LastFieldSnoc([a], b, key);
    LastFieldSnoc([b], a, key);
    assert [a] + [b] == [a, b] && [b] + [a] == [b, a];
  }

  /** A part appended at the end decides the key's field when it starts
      with the key, and leaves it as it was otherwise. */
  lemma LastFieldSnoc(parts: seq<string>, p: string, key: string)
    ensures LastField(parts + [p], key)
      == if HasPrefix(p, key) then Unquote(TrimPrefix(p, key)) else LastField(parts, key)
  {
    assert (parts + [p])[..|parts|] == parts;
  }

  /** A five-character scheme followed by two comma-free parts extracts
      what the two parts give. */
  lemma ExtractTwo(scheme: string, a: string, b: string, invoice: string, macaroon: string)
    requires |scheme| == 5 && ',' !in a && ',' !in b && invoice != "" && macaroon != ""
    requires LastField([a, b], "invoice=") == invoice && LastField([a, b], "macaroon=") == macaroon
    ensures Extraction(scheme + a + ", " + b) == Ok((invoice, macaroon))
  {
    TwoParts(a, b);
    assert (scheme + a + ", " + b)[5..] == a + ", " + b;
  }

  /** Two comma-free parts joined by ", " split back into themselves. */
  lemma TwoParts(a: string, b: string)
    requires ',' !in a && ',' !in b
    ensures Split(a + ", " + b, ", ") == [a, b]
  {
    LeadFree(a, ", ", ", ");
    LeadFree(b, ", ", "");
    assert b + "" == b;
    SplitAfterPiece(a, ", ", b);
    SplitUnbroken(b, ", ");
  }

  /** A header of fewer than five characters panics; otherwise a result has
      both fields non-empty and stripped of surrounding quotes. */
  lemma ExtractionShape(header: string)
    ensures |header| < 5 ==> Extraction(header).Err? && Extraction(header).error.Panic?
    ensures Extraction(header).Ok? ==>
      var (invoice, macaroon) := Extraction(header).value;
      && invoice != "" && macaroon != ""
      && invoice[0] != '"' && invoice[|invoice| - 1] != '"'
      && macaroon[0] != '"' && macaroon[|macaroon| - 1] != '"'
  {
    if |header| >= 5 {
      var parts := Split(header[5..], ", ");
      LastFieldUnquoted(parts, "invoice=");
      LastFieldUnquoted(parts, "macaroon=");
    }
  }

  /** A field value never begins or ends with a quote. */
  lemma {:induction false} LastFieldUnquoted(parts: seq<string>, key: string)
    ensures var v := LastField(parts, key); v == "" || (v[0] != '"' && v[|v| - 1] != '"')
    decreases |parts|
  {
    if |parts| > 0 && !HasPrefix(parts[|parts| - 1], key) {
      LastFieldUnquoted(parts[..|parts| - 1], key);
    }
  }

  /** Any first status other than 402 ends the run with an error after one
      request; nothing is paid and no confirmation is ever asked. */
  lemma OnlyA402Proceeds(recipeID: string, pairs: seq<string>, token: string, lib: Client.Library, replies: seq<Reply>)
    requires lib.newRequestOk("POST", RecipeURL(recipeID))
    requires NextReply(replies).Delivered? && NextReply(replies).response.status != StatusPaymentRequired
    ensures RecipeRun(recipeID, pairs, token, lib, replies)
         == Run(Err(Failure("unexpected status code: " + IntDecimal(NextReply(replies).response.status) + " instead of 402")),
                [FirstPost(recipeID, pairs)])
  {
  }

  /** At most three requests go out. A payment is made only after a 402
      whose header yields both fields, and it pays that invoice with the
      given token; the resend happens only after a payment that gave a
      preimage, and carries `LSAT <macaroon>:<preimage>` and no body. */
  lemma PaymentThenResend(recipeID: string, pairs: seq<string>, token: string, lib: Client.Library, replies: seq<Reply>)
    ensures var run := RecipeRun(recipeID, pairs, token, lib, replies);
      && |run.sent| <= 3
      && (|run.sent| >= 1 ==> run.sent[0] == FirstPost(recipeID, pairs))
      && (|run.sent| >= 2 ==>
            && NextReply(replies).Delivered?
            && NextReply(replies).response.status == StatusPaymentRequired
            && var ex := Extraction(HeaderValue(NextReply(replies).response.headers, Client.AuthenticateHeader));
            && ex.Ok?
            && run.sent[1] == RecipePaymentRequest(token, ex.value.0)
            && (|run.sent| == 3 ==>
                  var pay := RecipePaymentOutcome(NextReply(Consumed(replies, 1)));
                  && pay.Ok?
                  && run.sent[2] == FinalPost(recipeID, ex.value.1, pay.value)
                  && run.sent[2].body == NoBody))
  {
  }
}
