/** storage/upload.go: the `storage upload` command: checks its flags,
    writes the multipart form, posts it, and uploads the file itself to the
    presigned URL when the server returns one. */
module StorageUpload {
  import opened Errors
  import opened Strs
  import opened Http
  import opened Values
  import opened MacaroonsMint
  import opened StorageDownload
  import Client

  const UploadFilePath: string := "/v0/storage/upload"

  /** The command's string flags, "" when not given. */
  datatype UploadFlags = UploadFlags(
    name: string, description: string, price: string,
    filePath: string, fileURL: string, coverImage: string)

  /** What the checks accept: the listing to send. */
  datatype Listing = Listing(name: string, description: string, priceInCents: Uint64)

  /** The validation block, in the order the command runs it. `cents`
      stands for ParseFloat followed by the floor of the price times 100:
      None when the text is not a number. */
  function CheckUpload(f: UploadFlags, cents: string -> Option<Uint64>): Result<Listing> {
    if f.fileURL != "" then Err(Failure("file-url parameter is not implemented yet"))
    else if f.filePath == "" && f.fileURL == "" then Err(Failure("file-path or file-url is required"))
    else if f.filePath != "" && f.fileURL != "" then Err(Failure("only one of file-path or file-url is allowed"))
    else
      var name := if f.name == "" && f.filePath != "" then Base(f.filePath) else f.name;
      if name == "" && f.filePath == "" then Err(Failure("name is required"))
      else if f.description == "" then Err(Failure("description is required"))
      else if f.price == "" then Err(Failure("price is required"))
      else match cents(f.price)
        case None => Err(Failure("price must be a number (ex: 10.95)"))
        case Some(c) => Ok(Listing(name, f.description, c))
  }

  /** The form written field by field: name, description, price in cents
      and, only when a cover is given, the cover. */
  method WriteForm(l: Listing, cover: Option<string>) returns (parts: seq<(string, string)>)
    ensures |parts| >= 3
    ensures parts[..3] == [("name", l.name), ("description", l.description), ("price", Decimal(l.priceInCents))]
    ensures cover.None? ==> |parts| == 3
    ensures cover.Some? ==> |parts| == 4 && parts[3] == ("cover", cover.value)
    ensures parts == Form(l, cover)
  {
    parts := [];
    parts := parts + [("name", l.name)];
    parts := parts + [("description", l.description)];
    parts := parts + [("price", Decimal(l.priceInCents))];
    if cover.Some? {
      parts := parts + [("cover", cover.value)];
    }
  }

  /** The form as a value: the specification of WriteForm, and through it
      of the command. */
  function Form(l: Listing, cover: Option<string>): seq<(string, string)> {
    [("name", l.name), ("description", l.description), ("price", Decimal(l.priceInCents))]
      + (if cover.Some? then [("cover", cover.value)] else [])
  }

  /** The local files the command may open, by path, with their contents;
      a path not in the map cannot be opened. `base64` stands for the
      standard base64 encoding of the cover's bytes. */
  datatype Disk = Disk(files: map<string, string>, base64: string -> string)

  /** The cover field, if a cover is given and can be opened. */
  function CoverField(f: UploadFlags, disk: Disk): Result<Option<string>> {
    if f.coverImage == "" then Ok(None)
    else if f.coverImage !in disk.files then Err(Failure("failed to open cover image file"))
    else Ok(Some(disk.base64(disk.files[f.coverImage])))
  }

  /** The form post. Its URL and headers are built by a multipart executor
      that is not part of this model; the request records the method, the
      endpoint path and the form. */
  function UploadRequest(l: Listing, cover: Option<string>): Request {
    Request("POST", UploadFilePath, map[], Http.Form(Form(l, cover)))
  }

  /** The presigned PUT of the file's contents. */
  function PresignedPut(url: string, contents: string): Request {
    Request("PUT", url, map[], Text(contents))
  }

  /** What one run does: its result (the download URL printed) and every
      request it sent. */
  datatype UploadRun = UploadRun(result: Result<string>, sent: seq<Request>)

  /** uploadFile's behaviour after the form is written, for the replies. */
  function Posted(l: Listing, cover: Option<string>, contents: string, domain: string, lib: Client.Library,
                  replies: seq<Reply>): UploadRun {
    var post := UploadRequest(l, cover);
    match NextReply(replies)
    case Unreachable(_) => UploadRun(Err(Failure("failed to execute request")), [post])
    case Delivered(resp) =>
      if resp.status != StatusOK then UploadRun(Err(Failure("failed to upload file")), [post])
      else match resp.json
        case None => UploadRun(Err(Failure("failed to decode response")), [post])
        case Some(fields) =>
          var download := domain + DownloadPath + "/" + JsonField(fields, "file_id");
          var presigned := JsonField(fields, "presigned_url");
          if presigned == "" then UploadRun(Ok(download), [post])
          else if !lib.newRequestOk("PUT", presigned) then
            UploadRun(Err(Failure("failed to upload file to presigned URL")), [post])
          else
            var put := PresignedPut(presigned, contents);
            match NextReply(Consumed(replies, 1))
            case Delivered(r) =>
              if r.status == StatusOK then UploadRun(Ok(download), [post, put])
              else UploadRun(Err(Failure("failed to upload file to presigned URL")), [post, put])
            case Unreachable(_) => UploadRun(Err(Failure("failed to upload file to presigned URL")), [post, put])
  }

  /** uploadFile's behaviour for its flags, the disk and the replies. */
  function Uploaded(loggedIn: bool, f: UploadFlags, cents: string -> Option<Uint64>, disk: Disk, domain: string,
                    lib: Client.Library, replies: seq<Reply>): UploadRun
  {
    if !loggedIn then UploadRun(Err(LoginRequired), [])
    else match CheckUpload(f, cents)
      case Err(e) => UploadRun(Err(e), [])
      case Ok(l) =>
        if f.filePath !in disk.files then UploadRun(Err(Failure("failed to read file")), [])
        else match CoverField(f, disk)
          case Err(e) => UploadRun(Err(e), [])
          case Ok(cover) => Posted(l, cover, disk.files[f.filePath], domain, lib, replies)
  }

  /** uploadFile, with the login check's answer, its flags and the disk. */
  method UploadFile(loggedIn: bool, f: UploadFlags, cents: string -> Option<Uint64>, disk: Disk,
                    c: Client.HttpClient, lib: Client.Library, ports: Ports) returns (r: Result<string>)
    modifies ports`replies, ports`sent
    ensures var run := Uploaded(loggedIn, f, cents, disk, c.domain, lib, old(ports.replies));
      && r == run.result
      && ports.sent == old(ports.sent) + run.sent
      && ports.replies == Consumed(old(ports.replies), |run.sent|)
  {
    if !loggedIn {
      return Err(LoginRequired);
    }
    var listing := CheckUpload(f, cents);
    if listing.Err? {
      return Err(listing.error);
    }
    if f.filePath !in disk.files {
      return Err(Failure("failed to read file"));
    }
    var contents := disk.files[f.filePath];
    var cover: Option<string> := None;
    if f.coverImage != "" {
      if f.coverImage !in disk.files {
        return Err(Failure("failed to open cover image file"));
      }
      cover := Some(disk.base64(disk.files[f.coverImage]));
    }
    var parts := WriteForm(listing.value, cover);
    r := PostForm(listing.value, cover, parts, contents, c.domain, lib, ports);
  }

  /** The part of uploadFile after the form is written. */
  method PostForm(l: Listing, cover: Option<string>, parts: seq<(string, string)>, contents: string, domain: string,
                  lib: Client.Library, ports: Ports) returns (r: Result<string>)
    requires parts == Form(l, cover)
    modifies ports`replies, ports`sent
    ensures var run := Posted(l, cover, contents, domain, lib, old(ports.replies));
      && r == run.result
      && ports.sent == old(ports.sent) + run.sent
      && ports.replies == Consumed(old(ports.replies), |run.sent|)
  {
    var reply := ports.Send(Request("POST", UploadFilePath, map[], Http.Form(parts)));
    if reply.Unreachable? {
      return Err(Failure("failed to execute request"));
    }
    if reply.response.status != StatusOK {
      return Err(Failure("failed to upload file"));
    }
    if reply.response.json.None? {
      return Err(Failure("failed to decode response"));
    }
    var fields := reply.response.json.value;
    var presigned := JsonField(fields, "presigned_url");
    if presigned != "" {
      if !lib.newRequestOk("PUT", presigned) {
        return Err(Failure("failed to upload file to presigned URL"));
      }
      var put := ports.Send(PresignedPut(presigned, contents));
      ConsumedTwice(old(ports.replies), 1, 1);
      if put.Unreachable? || put.response.status != StatusOK {
        return Err(Failure("failed to upload file to presigned URL"));
      }
    }
    r := Ok(domain + DownloadPath + "/" + JsonField(fields, "file_id"));
  }

  // ---------------------------------------------------------------------
  // Properties

  /** The checks accept exactly: no file URL, a file path, a description,
      a price and a price that reads as a number; an empty name becomes
      the path's last element, so the accepted name is never empty. */
  lemma CheckUploadExactly(f: UploadFlags, cents: string -> Option<Uint64>)
    ensures CheckUpload(f, cents).Ok? <==>
      f.fileURL == "" && f.filePath != "" && f.description != "" && f.price != "" && cents(f.price).Some?
    ensures CheckUpload(f, cents).Ok? ==>
      && CheckUpload(f, cents).value.name == (if f.name == "" then Base(f.filePath) else f.name)
      && CheckUpload(f, cents).value.name != ""
      && CheckUpload(f, cents).value.priceInCents == cents(f.price).value
    ensures f.fileURL != "" ==> CheckUpload(f, cents) == Err(Failure("file-url parameter is not implemented yet"))
  {
  }

  /** Once a non-empty file URL has been rejected, the file path is
      non-empty, so the "only one of" and "name is required" checks never
      fire. */
  lemma DeadChecks(f: UploadFlags, cents: string -> Option<Uint64>)
    ensures CheckUpload(f, cents) != Err(Failure("only one of file-path or file-url is allowed"))
    ensures CheckUpload(f, cents) != Err(Failure("name is required"))
  {
  }

  /** The presigned PUT happens exactly after a decoded 200 naming a
      presigned URL that a PUT request can be built for, and sends the file
      there; a presigned URL the request cannot be built for fails the
      upload with nothing more sent. On success the result is the download
      URL for the returned file id. */
  lemma PresignedOnlyWhenGiven(l: Listing, cover: Option<string>, contents: string, domain: string,
                               lib: Client.Library, replies: seq<Reply>)
    ensures var run := Posted(l, cover, contents, domain, lib, replies);
      && 1 <= |run.sent| <= 2
      && run.sent[0] == UploadRequest(l, cover)
      && (|run.sent| == 2 <==>
            NextReply(replies).Delivered? && NextReply(replies).response.status == StatusOK
            && NextReply(replies).response.json.Some?
            && JsonField(NextReply(replies).response.json.value, "presigned_url") != ""
            && lib.newRequestOk("PUT", JsonField(NextReply(replies).response.json.value, "presigned_url")))
      && (NextReply(replies).Delivered? && NextReply(replies).response.status == StatusOK
            && NextReply(replies).response.json.Some?
            && JsonField(NextReply(replies).response.json.value, "presigned_url") != ""
            && !lib.newRequestOk("PUT", JsonField(NextReply(replies).response.json.value, "presigned_url")) ==>
            run.result == Err(Failure("failed to upload file to presigned URL")))
      && (|run.sent| == 2 ==>
            run.sent[1] == PresignedPut(JsonField(NextReply(replies).response.json.value, "presigned_url"), contents))
      && (run.result.Ok? ==>
            && NextReply(replies).Delivered? && NextReply(replies).response.json.Some?
            && run.result.value == domain + "/v0/storage/download/" + JsonField(NextReply(replies).response.json.value, "file_id"))
  {
  }

  /** Nothing is sent unless the login, the checks and the files pass. */
  lemma NothingSentOnBadArguments(loggedIn: bool, f: UploadFlags, cents: string -> Option<Uint64>, disk: Disk,
                                  domain: string, lib: Client.Library, replies: seq<Reply>)
    ensures Uploaded(loggedIn, f, cents, disk, domain, lib, replies).sent != [] ==>
      && loggedIn && CheckUpload(f, cents).Ok? && f.filePath in disk.files
      && (f.coverImage == "" || f.coverImage in disk.files)
  {
  }
}
