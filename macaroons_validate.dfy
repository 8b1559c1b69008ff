/** macaroons/validate.go: the `macaroon validate` command, which posts a
    macaroon and the condition map to the API and returns its message. */
module MacaroonsValidate {
  import opened Errors
  import opened Strs
  import opened Http
  import opened MacaroonsPairs
  import opened MacaroonsMint
  import Client

  const ValidatePath: string := "/v0/macaroon/validate"

  /** The ValidateMacaroonRequest body. */
  function ValidateBody(macaroon: string, conditions: map<string, string>): Payload {
    Json(map["macaroon" := JStr(macaroon), "conditions" := JObj(conditions)])
  }

  /** validateMacaroon's result for a response: a non-200 carries the
      server's `error` text, a 200 its `message`. */
  function Verdict(resp: Response): Result<string> {
    if resp.status != StatusOK then
      match resp.json
      case None => Err(Wrapped("Failed to decode error response", External("encoding/json")))
      case Some(fields) => Err(Failure("Failed to validate macaroon. " + JsonField(fields, "error")))
    else match resp.json
      case None => Err(Wrapped("Failed to decode response", External("encoding/json")))
      case Some(fields) => Ok(JsonField(fields, "message"))
  }

  /** validateMacaroon's result, given whether a user is logged in, its
      flags and the transport's replies. */
  function Validated(loggedIn: bool, c: Client.HttpClient, macaroon: string, conditions: seq<string>,
                     lib: Client.Library, replies: seq<Reply>): Result<string>
  {
    if !loggedIn then Err(LoginRequired)
    else match Pairs(conditions, "condition")
      case Err(e) => Err(e)
      case Ok(_) =>
        match Client.Executed(c, "POST", ValidatePath, lib, replies)
        case Err(_) => Err(Failure("Failed to execute request."))
        case Ok(resp) => Verdict(resp)
  }

  /** Whether validateMacaroon reaches the network. */
  predicate ValidateSends(loggedIn: bool, c: Client.HttpClient, conditions: seq<string>, lib: Client.Library) {
    loggedIn && Pairs(conditions, "condition").Ok? && Client.Builds(c, "POST", ValidatePath, lib)
  }

  /** validateMacaroon, with the login check's answer as `loggedIn`. */
  method ValidateMacaroon(loggedIn: bool, c: Client.HttpClient, macaroon: string, conditions: seq<string>,
                          lib: Client.Library, ports: Ports) returns (r: Result<string>)
    modifies ports`replies, ports`sent
    ensures r == Validated(loggedIn, c, macaroon, conditions, lib, old(ports.replies))
    ensures ValidateSends(loggedIn, c, conditions, lib) ==>
      && ports.sent == old(ports.sent)
           + [Client.FirstRequest(c, "POST", c.domain + ValidatePath, ValidateBody(macaroon, Pairs(conditions, "condition").value))]
      && ports.replies == Consumed(old(ports.replies), 1)
    ensures !ValidateSends(loggedIn, c, conditions, lib) ==>
      ports.sent == old(ports.sent) && ports.replies == old(ports.replies)
  {
    if !loggedIn {
      return Err(LoginRequired);
    }
    var conditionMap := ParsePairs(conditions, "condition");
    if conditionMap.Err? {
      return Err(conditionMap.error);
    }
    var resp := Client.ExecuteRequest(c, "POST", ValidatePath, ValidateBody(macaroon, conditionMap.value), lib, ports);
    if resp.Err? {
      return Err(Failure("Failed to execute request."));
    }
    if resp.value.status != StatusOK {
      if resp.value.json.None? {
        return Err(Wrapped("Failed to decode error response", External("encoding/json")));
      }
      return Err(Failure("Failed to validate macaroon. " + JsonField(resp.value.json.value, "error")));
    }
    if resp.value.json.None? {
      return Err(Wrapped("Failed to decode response", External("encoding/json")));
    }
    r := Ok(JsonField(resp.value.json.value, "message"));
  }

  /** Validation succeeds exactly on a 200 whose body decodes; any other
      status is an error carrying the server's text after a fixed prefix. */
  lemma VerdictCases(resp: Response)
    ensures Verdict(resp).Ok? <==> resp.status == StatusOK && resp.json.Some?
    ensures resp.status != StatusOK && resp.json.Some? ==>
      var m := Verdict(resp).error.message;
      HasPrefix(m, "Failed to validate macaroon. ") && EndsWith(m, JsonField(resp.json.value, "error"))
  {
    if resp.status != StatusOK && resp.json.Some? {
      var p := "Failed to validate macaroon. ";
      var m := p + JsonField(resp.json.value, "error");
      assert m[..|p|] == p;
      assert m[|m| - |JsonField(resp.json.value, "error")|..] == JsonField(resp.json.value, "error");
    }
  }

  /** Login is checked before the conditions; a malformed condition is
      reported as the first flag without `=`, and the network is not
      reached; a message comes back only from a 200. */
  lemma ValidateOutcomes(loggedIn: bool, c: Client.HttpClient, macaroon: string, conditions: seq<string>,
                         lib: Client.Library, replies: seq<Reply>)
    ensures !loggedIn ==> Validated(loggedIn, c, macaroon, conditions, lib, replies) == Err(LoginRequired)
    ensures loggedIn && (exists i | 0 <= i < |conditions| :: '=' !in conditions[i]) ==>
      && !ValidateSends(loggedIn, c, conditions, lib)
      && (exists i | 0 <= i < |conditions| :: '=' !in conditions[i]
            && (forall j | 0 <= j < i :: '=' in conditions[j])
            && Validated(loggedIn, c, macaroon, conditions, lib, replies) == Err(FormatError("condition", conditions[i])))
    ensures Validated(loggedIn, c, macaroon, conditions, lib, replies).Ok? ==>
      && ValidateSends(loggedIn, c, conditions, lib)
      && NextReply(replies).Delivered? && NextReply(replies).response.status == StatusOK
  {
    FirstBadFlag(conditions, "condition");
  }
}
