/** storage/update.go: the `storage update` command, which patches a file's
    name, description or price. */
module StorageUpdate {
  import opened Errors
  import opened Strs
  import opened Http
  import opened Values
  import opened MacaroonsMint
  import Client

  /** The command's flags; None is a flag not given. */
  datatype UpdateFlags = UpdateFlags(name: Option<string>, description: Option<string>, price: Option<Uint64>)

  /** The number of flags given. */
  function NumFlags(f: UpdateFlags): nat {
    (if f.name.Some? then 1 else 0) + (if f.description.Some? then 1 else 0) + (if f.price.Some? then 1 else 0)
  }

  /** A flag's value as the command reads it: "" or 0 when not given. */
  function StringFlag(flag: Option<string>): string {
    if flag.Some? then flag.value else ""
  }

  function PriceFlag(flag: Option<Uint64>): Uint64 {
    if flag.Some? then flag.value else 0
  }

  /** The update map: name and description only when non-empty, the price
      only when positive. */
  method UpdateData(f: UpdateFlags) returns (data: map<string, JsonValue>)
    ensures "name" in data <==> StringFlag(f.name) != ""
    ensures "description" in data <==> StringFlag(f.description) != ""
    ensures "price_in_usd_cents" in data <==> PriceFlag(f.price) > 0
    ensures data.Keys <= {"name", "description", "price_in_usd_cents"}
    ensures "name" in data ==> data["name"] == JStr(StringFlag(f.name))
    ensures "description" in data ==> data["description"] == JStr(StringFlag(f.description))
    ensures "price_in_usd_cents" in data ==> data["price_in_usd_cents"] == JNum(PriceFlag(f.price))
    ensures data == UpdateMap(f)
  {
    data := map[];
    var name := StringFlag(f.name);
    if name != "" {
      data := data["name" := JStr(name)];
    }
    var description := StringFlag(f.description);
    if description != "" {
      data := data["description" := JStr(description)];
    }
    var price := PriceFlag(f.price);
    if price > 0 {
      data := data["price_in_usd_cents" := JNum(price)];
    }
  }

  /** The update map as a value: the specification of UpdateData, and
      through it of the command. */
  function UpdateMap(f: UpdateFlags): map<string, JsonValue> {
    var name := StringFlag(f.name);
    var description := StringFlag(f.description);
    var price := PriceFlag(f.price);
    var withName: map<string, JsonValue> := if name != "" then map["name" := JStr(name)] else map[];
    var withDescription := if description != "" then withName["description" := JStr(description)] else withName;
    if price > 0 then withDescription["price_in_usd_cents" := JNum(price)] else withDescription
  }

  const MissingFileID: Error := Failure("missing <file_id> argument")
  const NoFlags: Error := Failure("at least one flag (--name, --description, or --price) is required")

  /** The path the patch goes to. */
  function UpdatePath(fileID: string): string {
    "/v0/storage/" + fileID
  }

  /** Whether updateFile reaches the network. */
  predicate UpdateSends(loggedIn: bool, args: seq<string>, f: UpdateFlags, c: Client.HttpClient, lib: Client.Library) {
    loggedIn && |args| >= 1 && NumFlags(f) > 0 && Client.Builds(c, "PATCH", UpdatePath(args[0]), lib)
  }

  /** updateFile's result for the transport's replies. */
  function Updated(loggedIn: bool, args: seq<string>, f: UpdateFlags, c: Client.HttpClient, lib: Client.Library,
                   replies: seq<Reply>): Option<Error>
  {
    if !loggedIn then Some(LoginRequired)
    else if |args| < 1 then Some(MissingFileID)
    else if NumFlags(f) == 0 then Some(NoFlags)
    else match Client.Executed(c, "PATCH", UpdatePath(args[0]), lib, replies)
      case Err(_) => Some(Failure("Failed to execute request."))
      case Ok(resp) =>
        if resp.status != StatusOK then Some(Failure("Failed request status code: " + IntDecimal(resp.status)))
        else if resp.json.None? then Some(Failure("Failed to decode file."))
        else None
  }

  /** updateFile, given the login check's answer, the arguments and flags. */
  method UpdateFile(loggedIn: bool, args: seq<string>, f: UpdateFlags, c: Client.HttpClient, lib: Client.Library,
                    ports: Ports) returns (err: Option<Error>)
    modifies ports`replies, ports`sent
    ensures err == Updated(loggedIn, args, f, c, lib, old(ports.replies))
    ensures UpdateSends(loggedIn, args, f, c, lib) ==>
      && ports.sent == old(ports.sent) + [Client.FirstRequest(c, "PATCH", c.domain + UpdatePath(args[0]), Json(UpdateMap(f)))]
      && ports.replies == Consumed(old(ports.replies), 1)
    ensures !UpdateSends(loggedIn, args, f, c, lib) ==> ports.sent == old(ports.sent) && ports.replies == old(ports.replies)
  {
    if !loggedIn {
      return Some(LoginRequired);
    }
    if |args| < 1 {
      return Some(MissingFileID);
    }
    if NumFlags(f) == 0 {
      return Some(NoFlags);
    }
    var fileID := args[0];
    var data := UpdateData(f);
    var resp := Client.ExecuteRequest(c, "PATCH", UpdatePath(fileID), Json(data), lib, ports);
    if resp.Err? {
      return Some(Failure("Failed to execute request."));
    }
    if resp.value.status != StatusOK {
      return Some(Failure("Failed request status code: " + IntDecimal(resp.value.status)));
    }
    if resp.value.json.None? {
      return Some(Failure("Failed to decode file."));
    }
    err := None;
  }

  /** Flags given with empty or zero values pass the flag check yet send an
      empty object; a field is sent exactly when its flag carries a value. */
  lemma EmptyValuesSendEmptyObject(f: UpdateFlags)
    ensures (StringFlag(f.name) == "" && StringFlag(f.description) == "" && PriceFlag(f.price) == 0) ==> UpdateMap(f) == map[]
    ensures f == UpdateFlags(Some(""), Some(""), Some(0)) ==> NumFlags(f) == 3 && UpdateMap(f) == map[]
    ensures "name" in UpdateMap(f) <==> f.name.Some? && f.name.value != ""
    ensures "price_in_usd_cents" in UpdateMap(f) <==> f.price.Some? && f.price.value > 0
  {
  }

  /** The checks come in order: login, then the file id, then the flags;
      a request goes out only when all pass, and success needs a 200. */
  lemma UpdateOutcomes(loggedIn: bool, args: seq<string>, f: UpdateFlags, c: Client.HttpClient, lib: Client.Library,
                       replies: seq<Reply>)
    ensures loggedIn && args == [] ==> Updated(loggedIn, args, f, c, lib, replies) == Some(MissingFileID)
    ensures loggedIn && args != [] && NumFlags(f) == 0 ==> Updated(loggedIn, args, f, c, lib, replies) == Some(NoFlags)
    ensures Updated(loggedIn, args, f, c, lib, replies).None? ==>
      && UpdateSends(loggedIn, args, f, c, lib)
      && NextReply(replies).Delivered? && NextReply(replies).response.status == StatusOK
  {
  }
}
