/** storage/download.go: the `storage download` command, which fetches a
    file through the L402 executor and saves it under the name the server
    gives. */
module StorageDownload {
  import opened Errors
  import opened Http
  import Client

  const DownloadPath: string := "/v0/storage/download"

  const MissingFileID: Error := Failure("missing <file_id> argument")

  /** The URL fetched: the argument itself when it parses as a request URI
      (`isURI` stands for url.ParseRequestURI succeeding), otherwise the
      download endpoint for that file id on the configured domain. */
  function ResolveURL(arg: string, domain: string, isURI: string -> bool): string {
    if isURI(arg) then arg else domain + DownloadPath + "/" + arg
  }

  /** The file written to disk: its name and contents. */
  datatype SavedFile = SavedFile(name: string, contents: string)

  /** downloadFile's result for what the executor did. */
  function Saved(t: Client.Trace): Result<SavedFile> {
    match t.result
    case Err(_) => Err(Failure("failed to execute request"))
    case Ok(resp) =>
      if resp.status != StatusOK then Err(Failure("failed to download file"))
      else
        var name := HeaderValue(resp.headers, "file-name");
        if name == "" then Err(Failure("failed to parse filename"))
        else Ok(SavedFile(name, resp.body))
  }

  /** downloadFile, given the command's arguments. */
  method DownloadFile(args: seq<string>, c: Client.HttpClient, isURI: string -> bool, lib: Client.Library, ports: Ports)
    returns (r: Result<SavedFile>)
    modifies ports
    ensures |args| < 1 ==>
      r == Err(MissingFileID)
      && ports.sent == old(ports.sent) && ports.replies == old(ports.replies) && ports.lines == old(ports.lines)
    ensures |args| >= 1 ==>
      var t := Client.Exchange(c, "GET", ResolveURL(args[0], c.domain, isURI), NoBody, lib, old(ports.replies), old(ports.lines));
      r == Saved(t) && Client.Advanced(t, old(ports.replies), old(ports.lines), old(ports.sent), ports.replies, ports.lines, ports.sent)
  {
    if |args| < 1 {
      return Err(MissingFileID);
    }
    var fileURL := args[0];
    if !isURI(fileURL) {
      fileURL := c.domain + DownloadPath + "/" + fileURL;
    }
    var resp := Client.ExecuteL402Request(c, "GET", fileURL, NoBody, lib, ports);
    if resp.Err? {
      return Err(Failure("failed to execute request"));
    }
    if resp.value.status != StatusOK {
      return Err(Failure("failed to download file"));
    }
    var fileName := HeaderValue(resp.value.headers, "file-name");
    if fileName == "" {
      return Err(Failure("failed to parse filename"));
    }
    r := Ok(SavedFile(fileName, resp.value.body));
  }

  /** A file is saved only from a 200 that names it, with the body as its
      contents; the fetch is a GET without a body to the resolved URL. */
  lemma SavedOnlyFromNamedOK(c: Client.HttpClient, url: string, lib: Client.Library, replies: seq<Reply>, lines: seq<string>)
    ensures var t := Client.Exchange(c, "GET", url, NoBody, lib, replies, lines);
      && (Saved(t).Ok? <==>
            t.result.Ok? && t.result.value.status == StatusOK && HeaderValue(t.result.value.headers, "file-name") != "")
      && (Saved(t).Ok? ==>
            && Saved(t).value == SavedFile(HeaderValue(t.result.value.headers, "file-name"), t.result.value.body)
            && t.sent[0] == Client.FirstRequest(c, "GET", url, NoBody))
  {
  }

  /** A file id that is not a URI is resolved on the download endpoint; a
      URI is fetched as given. */
  lemma ResolveCases(arg: string, domain: string, isURI: string -> bool)
    ensures isURI(arg) ==> ResolveURL(arg, domain, isURI) == arg
    ensures !isURI(arg) ==> ResolveURL(arg, domain, isURI) == domain + "/v0/storage/download/" + arg
  {
  }
}
