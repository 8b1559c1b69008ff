/** macaroons/mint.go: the `macaroon mint` command, which posts a location
    and the caveat map to the API and returns the minted macaroon. */
module MacaroonsMint {
  import opened Errors
  import opened Strs
  import opened Http
  import opened MacaroonsPairs
  import Client

  const MintPath: string := "/v0/macaroon/mint"

  /** The exit message when no user is logged in. */
  const LoginRequired: Error := Failure("You need to log in to run this command.")

  /** The MintMacaroonRequest body. */
  function MintBody(location: string, caveats: map<string, string>): Payload {
    Json(map["location" := JStr(location), "caveats" := JObj(caveats)])
  }

  /** mintMacaroon's result, given whether a user is logged in, its flags
      and the transport's replies. */
  function Minted(loggedIn: bool, c: Client.HttpClient, location: string, caveats: seq<string>,
                  lib: Client.Library, replies: seq<Reply>): Result<string>
  {
    if !loggedIn then Err(LoginRequired)
    else match Pairs(caveats, "caveat")
      case Err(e) => Err(e)
      case Ok(_) =>
        match Client.Executed(c, "POST", MintPath, lib, replies)
        case Err(_) => Err(Failure("Failed to execute request."))
        case Ok(resp) =>
          if resp.status != StatusOK then
            Err(Failure("Failed to mint macaroon. Status code: " + IntDecimal(resp.status)))
          else match resp.json
            case None => Err(Wrapped("Failed to decode response", External("encoding/json")))
            case Some(fields) => Ok(JsonField(fields, "macaroon"))
  }

  /** Whether mintMacaroon reaches the network. */
  predicate MintSends(loggedIn: bool, c: Client.HttpClient, caveats: seq<string>, lib: Client.Library) {
    loggedIn && Pairs(caveats, "caveat").Ok? && Client.Builds(c, "POST", MintPath, lib)
  }

  /** mintMacaroon, with the login check's answer as `loggedIn`. */
  method MintMacaroon(loggedIn: bool, c: Client.HttpClient, location: string, caveats: seq<string>,
                      lib: Client.Library, ports: Ports) returns (r: Result<string>)
    modifies ports`replies, ports`sent
    ensures r == Minted(loggedIn, c, location, caveats, lib, old(ports.replies))
    ensures MintSends(loggedIn, c, caveats, lib) ==>
      && ports.sent == old(ports.sent)
           + [Client.FirstRequest(c, "POST", c.domain + MintPath, MintBody(location, Pairs(caveats, "caveat").value))]
      && ports.replies == Consumed(old(ports.replies), 1)
    ensures !MintSends(loggedIn, c, caveats, lib) ==>
      ports.sent == old(ports.sent) && ports.replies == old(ports.replies)
  {
    if !loggedIn {
      return Err(LoginRequired);
    }
    var caveatMap := ParsePairs(caveats, "caveat");
    if caveatMap.Err? {
      return Err(caveatMap.error);
    }
    var resp := Client.ExecuteRequest(c, "POST", MintPath, MintBody(location, caveatMap.value), lib, ports);
    if resp.Err? {
      return Err(Failure("Failed to execute request."));
    }
    if resp.value.status != StatusOK {
      return Err(Failure("Failed to mint macaroon. Status code: " + IntDecimal(resp.value.status)));
    }
    if resp.value.json.None? {
      return Err(Wrapped("Failed to decode response", External("encoding/json")));
    }
    r := Ok(JsonField(resp.value.json.value, "macaroon"));
  }

  /** Login is checked before the caveats; a malformed caveat is reported
      as the first flag without `=`; a macaroon comes back only from a 200
      reply to the mint request. */
  lemma MintOutcomes(loggedIn: bool, c: Client.HttpClient, location: string, caveats: seq<string>,
                     lib: Client.Library, replies: seq<Reply>)
    ensures !loggedIn ==> Minted(loggedIn, c, location, caveats, lib, replies) == Err(LoginRequired)
    ensures loggedIn && (exists i | 0 <= i < |caveats| :: '=' !in caveats[i]) ==>
      exists i | 0 <= i < |caveats| :: '=' !in caveats[i]
        && (forall j | 0 <= j < i :: '=' in caveats[j])
        && Minted(loggedIn, c, location, caveats, lib, replies) == Err(FormatError("caveat", caveats[i]))
    ensures Minted(loggedIn, c, location, caveats, lib, replies).Ok? ==>
      && MintSends(loggedIn, c, caveats, lib)
      && NextReply(replies).Delivered? && NextReply(replies).response.status == StatusOK
      && NextReply(replies).response.json.Some?
      && Minted(loggedIn, c, location, caveats, lib, replies).value
           == JsonField(NextReply(replies).response.json.value, "macaroon")
  {
    FirstBadFlag(caveats, "caveat");
  }
}
