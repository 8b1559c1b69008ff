/** gateway/access.go: the `gateway access` command, which calls a gateway
    endpoint through the L402 executor and returns the response body. */
module GatewayAccess {
  import opened Errors
  import opened Strs
  import opened Http
  import Client

  const AccessGatewayPath: string := "/v0/gateway/access"

  /** The command's flags; None is a flag not given. */
  datatype AccessFlags = AccessFlags(verb: Option<string>, body: string, contentType: Option<string>)

  /** The method flag, GET when not given. */
  function Verb(f: AccessFlags): string {
    if f.verb.Some? then f.verb.value else "GET"
  }

  /** The content-type flag, application/json when not given. */
  function ContentType(f: AccessFlags): string {
    if f.contentType.Some? then f.contentType.value else "application/json"
  }

  /** The body sent: none for an empty flag, the text otherwise. */
  function Body(f: AccessFlags): Payload {
    if f.body == "" then NoBody else Text(f.body)
  }

  /** The URL called: the argument itself when it parses as a request URI,
      otherwise the access endpoint for that gateway id. */
  function GatewayURL(arg: string, domain: string, isURI: string -> bool): string {
    if isURI(arg) then arg else domain + AccessGatewayPath + "/" + arg
  }

  const MissingGatewayID: Error := Failure("missing <gateway_id> argument")

  /** accessGateway's result for what the executor did. */
  function Accessed(t: Client.Trace): Result<string> {
    match t.result
    case Err(_) => Err(Failure("failed to execute request"))
    case Ok(resp) =>
      if resp.status != StatusOK then Err(Failure("failed to access gateway. Status code: " + IntDecimal(resp.status)))
      else Ok(resp.body)
  }

  /** accessGateway, given the command's arguments and flags. */
  method AccessGateway(args: seq<string>, f: AccessFlags, c: Client.HttpClient, isURI: string -> bool,
                       lib: Client.Library, ports: Ports) returns (r: Result<string>)
    modifies ports
    ensures |args| < 1 ==>
      r == Err(MissingGatewayID)
      && ports.sent == old(ports.sent) && ports.replies == old(ports.replies) && ports.lines == old(ports.lines)
    ensures |args| >= 1 ==>
      var t := Client.Exchange(c, Verb(f), GatewayURL(args[0], c.domain, isURI), Body(f), lib, old(ports.replies), old(ports.lines));
      r == Accessed(t) && Client.Advanced(t, old(ports.replies), old(ports.lines), old(ports.sent), ports.replies, ports.lines, ports.sent)
  {
    if |args| < 1 {
      return Err(MissingGatewayID);
    }
    var gatewayURL := args[0];
    if !isURI(gatewayURL) {
      gatewayURL := c.domain + AccessGatewayPath + "/" + gatewayURL;
    }
    var verb := if f.verb.Some? then f.verb.value else "GET";
    var body := if f.body != "" then Text(f.body) else NoBody;
    var resp := Client.ExecuteL402Request(c, verb, gatewayURL, body, lib, ports);
    if resp.Err? {
      return Err(Failure("failed to execute request"));
    }
    if resp.value.status != StatusOK {
      return Err(Failure("failed to access gateway. Status code: " + IntDecimal(resp.value.status)));
    }
    r := Ok(resp.value.body);
  }

  /** The first request uses the given method, or GET when the flag is
      absent or empty, the given body or
      none, and goes to the resolved URL; the body comes back only from a
      200, and every other status is reported with its number. */
  lemma AccessOutcomes(f: AccessFlags, c: Client.HttpClient, arg: string, isURI: string -> bool, lib: Client.Library,
                       replies: seq<Reply>, lines: seq<string>)
    ensures var url := GatewayURL(arg, c.domain, isURI);
      var t := Client.Exchange(c, Verb(f), url, Body(f), lib, replies, lines);
      && (t.sent != [] ==> t.sent[0] == Client.FirstRequest(c, Verb(f), url, Body(f)))
      && (t.sent != [] ==> t.sent[0].verb == (if Verb(f) == "" then "GET" else Verb(f)))
      && (f.verb.None? ==> Verb(f) == "GET")
      && (f.contentType.None? ==> ContentType(f) == "application/json")
      && (f.body == "" <==> Body(f).NoBody?)
      && (Accessed(t).Ok? <==> t.result.Ok? && t.result.value.status == StatusOK)
      && (t.result.Ok? && t.result.value.status != StatusOK ==>
            Accessed(t) == Err(Failure("failed to access gateway. Status code: " + IntDecimal(t.result.value.status))))
  {
  }

  /** A gateway id that is not a URI is resolved on the access endpoint. */
  lemma GatewayURLCases(arg: string, domain: string, isURI: string -> bool)
    ensures isURI(arg) ==> GatewayURL(arg, domain, isURI) == arg
    ensures !isURI(arg) ==> GatewayURL(arg, domain, isURI) == domain + "/v0/gateway/access/" + arg
  {
  }
}
