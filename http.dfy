/** Requests, responses and the ports through which the core reaches the
    outside world. The network, the terminal and the Lightning payment are
    not modelled; a `Ports` object stands for them: the replies the transport
    will give and the lines standard input will yield are scripted in
    advance, and every request the core makes is logged. */
module Http {
  import opened Errors

  /** A JSON value as the core builds it (encoding itself is not modelled). */
  datatype JsonValue = JStr(text: string) | JNum(number: nat) | JObj(members: map<string, string>)

  /** A request body. */
  datatype Payload =
    | NoBody
    | Text(text: string)
    | Json(fields: map<string, JsonValue>)
    | Form(parts: seq<(string, string)>)

  datatype Request = Request(verb: string, url: string, headers: map<string, string>, body: Payload)

  /** A response. `json` is what decoding the body as a JSON object of
      string fields gives: None when the body is not JSON; a field missing
      from the object reads as "", as Go's json package leaves it. */
  datatype Response = Response(
    status: int,
    headers: map<string, string>,
    body: string,
    json: Option<map<string, string>>)

  /** What the transport gives back for one request. */
  datatype Reply = Delivered(response: Response) | Unreachable(cause: Error)

  const StatusOK: int := 200
  const StatusPaymentRequired: int := 402

  /** http.Header.Get: the value, or "" when the header is absent. */
  function HeaderValue(headers: map<string, string>, name: string): (v: string)
    ensures name !in headers ==> v == ""
    ensures name in headers ==> v == headers[name]
  {
    if name in headers then headers[name] else ""
  }

  /** A JSON string field, "" when missing. */
  function JsonField(fields: map<string, string>, name: string): string {
    if name in fields then fields[name] else ""
  }

  /** The transport's next reply; an exhausted script is a connection failure. */
  function NextReply(replies: seq<Reply>): Reply {
    if replies == [] then Unreachable(External("net/http: connection failed")) else replies[0]
  }

  /** The script after `n` requests. */
  function Consumed<T>(script: seq<T>, n: nat): seq<T> {
    if n <= |script| then script[n..] else []
  }

  /** Consuming in two steps is consuming the sum. */
  lemma ConsumedTwice<T>(script: seq<T>, m: nat, n: nat)
    ensures Consumed(Consumed(script, m), n) == Consumed(script, m + n)
  {
    if m + n <= |script| {
      assert script[m..][n..] == script[m + n..];
    }
  }

  /** Whether a line ends with its newline. */
  predicate Terminated(line: string) {
    |line| > 0 && line[|line| - 1] == '\n'
  }

  /** What ReadString('\n') gives on input that yields `lines`: the next
      line with its newline. Input that ends without a newline makes it
      report io.EOF, as does input that has run out; nothing is read after
      that, so the model leaves such a last line where it is. */
  function NextLine(lines: seq<string>): (r: Result<string>)
    ensures r.Ok? <==> lines != [] && Terminated(lines[0])
    ensures r.Ok? ==> r.value == lines[0]
    ensures r.Err? ==> r.error == EndOfInput
  {
    if lines == [] || !Terminated(lines[0]) then Err(EndOfInput) else Ok(lines[0])
  }

  class Ports {
    /** Replies the transport will give, in order. */
    var replies: seq<Reply>
    /** What standard input holds, line by line; only the last may lack
        its newline. */
    var lines: seq<string>
    /** Every request handed to the transport. */
    var sent: seq<Request>

    constructor (replies: seq<Reply>, lines: seq<string>)
      ensures this.replies == replies && this.lines == lines && sent == []
    {
      this.replies := replies;
      this.lines := lines;
      sent := [];
    }

    /** Hands a request to the transport. */
    method Send(req: Request) returns (reply: Reply)
      modifies this`replies, this`sent
      ensures reply == NextReply(old(replies))
      ensures replies == Consumed(old(replies), 1)
      ensures sent == old(sent) + [req]
    {
      reply := NextReply(replies);
      if replies != [] {
        replies := replies[1..];
      }
      sent := sent + [req];
    }

    /** bufio.Reader.ReadString('\n') on standard input. */
    method ReadLine() returns (line: Result<string>)
      modifies this`lines
      ensures line == NextLine(old(lines))
      ensures lines == if line.Ok? then old(lines)[1..] else old(lines)
    {
      if lines == [] || !Terminated(lines[0]) {
        line := Err(EndOfInput);
      } else {
        line := Ok(lines[0]);
        lines := lines[1..];
      }
    }
  }
}
