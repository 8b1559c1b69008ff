# Fewsats CLI: a verified model of the L402 pay-to-access core

This project models the core of the Fewsats command-line client in Dafny
and proves properties of that model. The client reaches paid HTTP
resources through the L402 flow:

- the server answers `402 Payment Required` with a `WWW-Authenticate`
  challenge that holds a macaroon and a Lightning invoice;
- the client prices the invoice, asks the user, and pays it through an
  Alby account;
- it then resends the request with `Authorization: L402 <macaroon>:<preimage>`.

Around that flow the model covers:

- the three challenge parsers (space-split, quoted-regex and the recipe
  variant);
- the invoice price decoder;
- the local SQLite stores for credentials, wallets and API keys, as
  in-memory tables;
- wallet management and the Alby and ZBD preimage providers;
- the macaroon identifier decoder and the `key=value` caveat and
  condition parser;
- the argument and response handling of the storage, gateway and recipe
  commands;
- the version string.

Each Go file keeps its own shape:

- **Stores are classes.** Each store is a class whose fields are the
  tables. Its methods update the fields, and each is specified by a
  function from the old tables to the new.
- **Loops are methods.** Loops that fill a map or reassign variables are
  methods with loop invariants. Each is proved equal to a recursive
  specification function.
- **I/O goes through ports.** The network and standard input are an
  `Http.Ports` object: a script of transport replies, a script of input
  lines, and the log of every request sent. Each command is a method over
  the ports. It is proved to give the result, and send the requests,
  that a pure "run" function of the scripts describes. The properties are
  lemmas about those functions.
- **Foreign code is a parameter.** Code that is not part of the
  repository comes in as a function parameter:
  - `zpay32.Decode`;
  - `url.ParseRequestURI`;
  - whether `http.NewRequest` accepts a method and URL;
  - `strconv.ParseFloat` followed by the floor of the price times 100;
  - base64 encoding.

  The `loggedIn` flag stands for `client.RequiresLogin`.
- **SQL failures are injected.** A set `failing` on each table lists
  the statements the database rejects.
- **`LIMIT 1` without `ORDER BY` is a set of answers.** Such a query is
  modelled by the set of answers it may give.
- **Fixed-width integers are explicit.** Go's fixed-width integers are
  subset types of `int`. The one conversion that wraps (`int64(msat)` in
  `DecodePrice`) is written out.

## Model

| member | source | states |
|---|---|---|
| Client.LastValue | client/client.go:157-164 | when no token starts with the key, the key's value is empty |
| Client.LastValueSnoc | client/client.go:158-164 | a token appended at the end sets the key to the token's rest when it starts with the key (a later token overwrites an earlier one); any other token leaves the value unchanged |
| Client.SpaceChallenge | client/client.go:149-171 | an empty header fails with "no L402 challenge found"; a parsed challenge always has a non-empty macaroon and a non-empty invoice |
| Client.ParseL402Challenge | client/client.go:149-171 | the token loop over the `WWW-Authenticate` value gives exactly the challenge the space-split specification describes |
| Client.SpaceChallengeEitherOrder | client/client.go:155-170 | a scheme followed by one `macaroon=` token and one `invoice=` token parses to (macaroon, invoice) whichever token comes first |
| Client.ChallengeOfThree | client/client.go:155-170 | a header of three space-free tokens parses to the values of its last `macaroon=` and `invoice=` tokens |
| Client.LaterMacaroonWins | client/client.go:158-168 | appending ` macaroon=m` to any header makes m the macaroon; the invoice stays what the earlier tokens gave, and an absent invoice is still an error |
| Client.NetworkTag | client/client.go:241-246 | the tag handed to the decoder spans index 2 up to the first digit, lower-cased, and holds no digit |
| Client.MilliSatToSat | client/client.go:256-261 | below 2^63 msat the price is the amount divided by 1000, rounded down; the result is always a uint64 |
| Client.DecodePrice | client/client.go:235-262 | an invoice under two characters is "bolt11 too short", one whose first digit is at index 0 or 1 (or absent) is "invalid bolt11 invoice"; a price comes only from an invoice the decoder accepts, and is 0 without an amount and amount/1000 (rounded down) for amounts below 2^63 msat |
| Client.MalformedInvoices | client/client.go:237-244 | shorter than 2 characters is "bolt11 too short"; otherwise "invalid bolt11 invoice" comes exactly when the first digit is at index 0 or 1 or there is no digit |
| Client.PriceOfDecodedInvoice | client/client.go:246-261 | no amount prices at 0; an amount below 2^63 prices at amount/1000; a decoder error is wrapped with "zpay32 decoding failed" |
| Client.PriceExamples | client/client.go:256-261 | 50,000,000 msat is 50,000 sat and 999 msat is 0 |
| Client.HugeAmountWraps | client/client.go:256-261 | 2^63 msat and 2^64-1 msat do not divide: the int64 conversion wraps them |
| Client.AuthorizationOnly | client/client.go:139 | setting Authorization keeps the method, URL, body and every other header |
| Client.PaymentOutcomeCases | client/client.go:209-232 | a preimage comes back exactly from a 200 whose body decodes, and it is `payment_preimage` verbatim; any other status is "unexpected status code" with the code |
| Client.PayInvoice | client/client.go:185-233 | sends one POST to Alby's bolt11 endpoint with the bearer token and the invoice, and returns the outcome of the reply |
| Client.ExecuteL402Request | client/client.go:71-146 | the result, the requests sent, and the replies and input lines consumed are exactly those of the executor's specification for the scripted replies and lines; a request that cannot be built sends nothing |
| Client.SendFirst | client/client.go:83-146 | after the first request is sent, the rest of the call follows the specification from the reply on |
| Client.HandleReply | client/client.go:92-146 | a reply that is not a 402 is returned unchanged; a 402 continues with the challenge |
| Client.AnswerChallenge | client/client.go:102-146 | on a 402, one input line is read and discarded, and input that has run out or ends without a newline is a read error; then the challenge is parsed and priced, as the specification says |
| Client.AskPayResend | client/client.go:118-146 | a second line is read for consent (an unterminated or missing line is a read error), payment follows only a Y/y answer, and exactly one resend carries the L402 proof |
| Client.PayAndResend | client/client.go:132-145 | after consent: the payment request, then, only when it yields a preimage, the resend with the L402 proof; no input is read |
| Client.RequestMethod | client/client.go:74 | the request's method is never empty: an empty method becomes GET, any other is kept |
| Client.ExecuteRequest | client/client.go:43-66 | one request to domain+path with the bearer key when set; its result is the delivered response or the wrapped transport error |
| Client.ExecuteRequestAsL402 | client/client.go:43-66 | every delivered response, 402 included, is handed back; on a reply other than 402 it agrees with ExecuteL402Request on the same URL (same result, same single request, no input read) |
| Client.UnpricedEndsEarly | client/client.go:92-116 | unless the first reply is a 402 whose challenge parses and prices, at most one request goes out and at most one line is read |
| Client.PricedContinues | client/client.go:102-116 | with a priced challenge, the call is the first request, then the priced stage over the lines after the discarded one |
| Client.NonPaymentStatusPassesThrough | client/client.go:92-98 | a response other than 402 is the result, after the single original request and with no input read |
| Client.PaymentOnlyAfterConsent | client/client.go:102-135 | at most three requests and two lines; a second request happens only after a priced 402 and a newline-terminated confirmation that trims to Y or y, and it pays that challenge's invoice with the Alby token |
| Client.DeclineNeverPays | client/client.go:122-130 | any other terminated answer fails with "user chose not to continue" after exactly one request and two lines |
| Client.UnterminatedAnswerRefused | client/client.go:122-125 | a confirmation that is missing or lacks its newline fails with "unable to read user input" after the single original request, so nothing is paid |
| Client.UnterminatedYesIsNoAnswer | client/client.go:122-125 | "y" at the end of the input without a newline is io.EOF, while "y\n" is read as the line |
| Client.RetryOnlyAfterPayment | client/client.go:132-145 | a payment error ends the call with no resend; after a payment, exactly one resend goes out (the original request with Authorization replaced by `L402 mac:preimage`), and its response is returned whatever its status |
| Client.ConsentExamples | client/client.go:127-128 | the line "y\n" is consent |
| Client.EmptyLineRefuses | client/client.go:127-130 | an empty line is not consent |
| Client.YesRefuses | client/client.go:127-130 | "yes" is not consent |
| Credentials.AuthenticationHeader | credentials/credentials.go:41-44 | never fails, whatever the fields hold; the header is "L402 " followed by the macaroon, a colon and the preimage |
| Credentials.AuthenticationHeaderRoundTrip | credentials/credentials.go:41-44 | the header never fails, starts with "L402 ", and cuts back at its first ':' into the macaroon and the preimage (for a colon-free macaroon) |
| Credentials.QuotedAt | credentials/credentials.go:66-67 | a match of `key="([^"]+)"` yields a non-empty value without a quote |
| Credentials.FirstQuoted | credentials/credentials.go:77-78 | the leftmost match yields a non-empty, quote-free value |
| Credentials.FirstQuotedIsLeftmost | credentials/credentials.go:77-78 | a value found by the scan is the match at some index at or after the start |
| Credentials.LeftmostField | credentials/credentials.go:66-78 | with no earlier `key="`, the field `key="v"` yields v |
| Credentials.NoQuoteNoField | credentials/credentials.go:66-67 | a string without quotes holds no match |
| Credentials.QuotedChallenge | credentials/credentials.go:72-89 | a parsed pair has two non-empty, quote-free values, in (macaroon, invoice) order |
| Credentials.EmptyChallengeRejected | credentials/credentials.go:73-75 | the empty header fails with "no L402 challenge/empty header found" |
| Credentials.UnquotedChallengeRejected | credentials/credentials.go:80-82 | any non-empty header without a quote fails with "missing macaroon/invoice in challenge: " followed by the header |
| Credentials.QuotedFieldsAnyOrder | credentials/credentials.go:72-89 | `L402 macaroon="m", invoice="i"` and the reverse order both parse to (m, i) |
| Credentials.TwoFields | credentials/credentials.go:77-88 | both fields of `scheme k1="v1", k2="v2"` are found |
| Credentials.ParseL402Challenge | credentials/credentials.go:47-62 | success carries the external id, the parsed macaroon and invoice, an empty preimage and the zero time; a parser error is wrapped with "invalid L402 challenge header" |
| CredentialsAccess.GetL402Credentials | credentials/credentials.go:92-102 | the result is one of the store's answers, passed through or with its error wrapped |
| CredentialsAccess.SaveL402Credentials | credentials/credentials.go:104-111 | the store's insert, with its error wrapped with "failed to insert credentials to db" |
| CredentialsAccess.WrapperKeepsCause | credentials/credentials.go:92-111 | a credential passes unchanged; an error is wrapped, never swallowed, and still `errors.Is` the cause |
| CredentialsAccess.MissingCredentialsDetectable | credentials/credentials.go:92-102 | for an id without rows, every possible result is an error that still `errors.Is` ErrNoCredentialsFound |
| CredentialStore.CredentialTable.InsertL402Credentials | store/credentials.go:13-35 | the caller's record is stamped with the current time; on success exactly that record is appended under a fresh id, on failure the table is unchanged and the error is wrapped |
| CredentialStore.CredentialTable.GetL402Credentials | store/credentials.go:38-67 | the result is one of the answers `LIMIT 1` may give |
| CredentialStore.ReadIsStoredAndComplete | store/credentials.go:43-66 | a credential read back is a stored row for that external id, with a non-empty macaroon and preimage |
| CredentialStore.NotFoundIffNoRow | store/credentials.go:51-54 | ErrNoCredentialsFound is possible exactly when the lookup runs and no row has the id, and then it is the only answer |
| CredentialStore.InsertedIsFound | store/credentials.go:13-67 | a complete record inserted under a new external id is exactly what a later lookup returns |
| CredentialStore.LookupNotDeterminate | store/credentials.go:43-48 | two complete rows that share an id are both possible answers |
| ApiKeyStore.APIKeyTable.InsertAPIKey | store/api_keys.go:19-36 | on success an enabled key with the given expiry and user is appended under a fresh id, which is returned; on failure nothing changes |
| ApiKeyStore.APIKeyTable.GetAPIKey | store/api_keys.go:42-61 | returns the key of some enabled row that expires strictly after now, or "" with no error when there is none |
| ApiKeyStore.APIKeyTable.GetEnabledAPIKeys | store/api_keys.go:64-74 | returns exactly the active rows; the query has no ORDER BY, and the model picks table order, one of the orders it may give |
| ApiKeyStore.APIKeyTable.DisableAPIKey | store/api_keys.go:77-85 | clears `enabled` on the rows with that id; an unknown id is not an error |
| ApiKeyStore.ActiveKeysExactly | store/api_keys.go:64-74 | a key is listed exactly when it is stored, enabled and unexpired |
| ApiKeyStore.DisabledChangesOnlyEnabled | store/api_keys.go:77-85 | disabling keeps the row count, every other row, and every field but `enabled` |
| ApiKeyStore.DisabledNeverActive | store/api_keys.go:77-85 | a disabled key is never active again, whatever the time |
| WalletStore.WalletTable.GetDefaultWallet | store/wallets.go:13-30 | the stored default, ErrNoWalletFound when there is none, or the database error |
| WalletStore.WalletTable.SetDefaultWallet | store/wallets.go:33-54 | empties default_wallet, then stores the id; each step's failure is wrapped with its own message |
| WalletStore.WalletTable.InsertWallet | store/wallets.go:57-76 | appends the wallet under the next id, then makes it the default; the id comes back only if both steps succeed |
| WalletStore.WalletTable.GetWallet | store/wallets.go:79-97 | the result is one of the answers the query may give |
| WalletStore.WalletTable.DeleteWallet | store/wallets.go:100-113 | removes the rows with that id |
| WalletStore.WalletTable.InsertWalletToken | store/wallets.go:116-128 | appends the token row |
| WalletStore.WalletTable.GetWalletToken | store/wallets.go:131-145 | the result is one of the answers the query may give |
| WalletStore.WalletTable.DeleteWalletToken | store/wallets.go:148-161 | removes every token row of that wallet |
| WalletStore.WalletsExceptKeepsOthers | store/wallets.go:100-113 | after the delete, a wallet remains exactly when it was stored under another id |
| WalletStore.WalletsExceptUnique | store/wallets.go:100-113 | deleting by id keeps the wallet ids unique |
| WalletStore.StoredWalletIsTheAnswer | store/wallets.go:79-97 | with unique ids, GetWallet on a stored wallet's id can only give that wallet |
| WalletStore.TokensExceptKeepsOthers | store/wallets.go:148-161 | after the delete, a token remains exactly when it belongs to another wallet |
| WalletStore.SetDefaultSingleSlot | store/wallets.go:33-54 | touches only default_wallet and never checks that the wallet exists; success leaves exactly [walletID]; a failed insert after the delete leaves no default |
| WalletStore.AddWalletFresh | store/wallets.go:57-76 | success adds one wallet of that type and time under an unused id and makes it the sole default; tokens are untouched; a failed default still leaves the row, while 0 comes back |
| WalletStore.RemoveWalletOnlyWallet | store/wallets.go:100-113 | deletes only that wallet; the default and the tokens are untouched, so the default may dangle |
| WalletStore.WalletAnswersCases | store/wallets.go:79-97 | a wallet read back is stored under that id; ErrNoWalletFound comes exactly when the query runs and finds no row |
| WalletStore.TokenAnswersCases | store/wallets.go:131-145 | a token read back is stored for that wallet; a missing token gives the raw no-rows error, never ErrNoWalletFound |
| Wallets.GetWallet | wallets/wallets.go:83-113 | the result is the dispatch of one of the store's possible answers |
| Wallets.GetDefaultWallet | wallets/wallets.go:70-79 | the default lookup's error is returned as it is; otherwise the result is GetWallet on the default id |
| Wallets.DeleteWallet | wallets/wallets.go:116-132 | the tables and the error are the dispatch of one of the store's answers: alby and zbd go through the token-wallet delete |
| Wallets.GetPreimage | wallets/interface.go:4-7 | a ZBD provider answers "" at once; an Alby provider sends its one payment request and returns the outcome |
| Wallets.ProviderFromStoredWallet | wallets/wallets.go:91-106 | a provider comes only from a stored alby or zbd wallet with that id, holding a token stored for it |
| Wallets.UnsupportedTypeRejected | wallets/wallets.go:108-109 | a stored wallet of any other type string, matched exactly and case-sensitively, gives "unsupported wallet type" and nothing else |
| Wallets.MissingTokenPropagates | wallets/wallets.go:93-96 | an alby or zbd wallet without a token gives exactly the raw token-lookup error, never ErrNoWalletFound |
| Wallets.DeleteUnsupportedWritesNothing | wallets/wallets.go:117-131 | a failed lookup, or an unsupported type ("delete wallet … not implemented"), writes nothing |
| WalletsConnect.ConnectTokenWallet | wallets/connect.go:40-54 | the new tables, id and error are those of the insert-wallet-then-token sequence |
| WalletsConnect.ConnectWallet | wallets/connect.go:11-37 | rejected flags leave the store untouched; accepted flags run the token-wallet sequence |
| WalletsConnect.ConnectCheckExactly | wallets/connect.go:19-33 | the flags pass exactly for a supported type with a non-empty token; the type is checked first |
| WalletsConnect.ConnectedWalletAndToken | wallets/connect.go:40-53 | success comes exactly when none of the four writes fails and ids remain; it adds one wallet under a fresh id, makes it the default and stores the token under that id |
| WalletsConnect.NoTokenWithoutWallet | wallets/connect.go:43-46 | when the wallet insert fails, no token is written and 0 comes back |
| WalletsConnect.NoRollback | wallets/connect.go:48-51 | when only the token insert fails, the new wallet stays and remains the default |
| WalletsAlby.ConnectAlbyWallet | wallets/alby.go:18-31 | the token-wallet sequence with type "alby" |
| WalletsAlby.DeleteAlbyWallet | wallets/alby.go:34-45 | tokens first, then the wallet row; a failed token delete is wrapped and stops the delete |
| WalletsAlby.DeleteTokensThenWallet | wallets/alby.go:34-45 | a failed token delete changes nothing; success leaves neither the wallet nor its tokens and keeps everything else; the default is never touched |
| WalletsAlby.GetPreimage | wallets/alby.go:71-125 | one POST to the Alby bolt11 endpoint carrying the key and the invoice; the result is the outcome of its reply |
| WalletsAlby.PreimageOutcomeCases | wallets/alby.go:100-124 | a preimage comes back exactly from a decodable 200, verbatim and possibly empty; a non-200 error carries the status and the body |
| WalletsAlby.SameAsClientPayment | wallets/alby.go:71-125 | the request is the L402 client's payment request, and the two agree on every reply except the wording of a non-200 error |
| WalletsZbd.ConnectZBDWallet | wallets/zbd.go:10-24 | the token-wallet sequence with type "zbd" |
| WalletsZbd.DeleteZBDWallet | wallets/zbd.go:27-38 | tokens first, then the wallet row, stopping after a failed token delete |
| WalletsZbd.ZbdStub | wallets/zbd.go:44-52 | the client keeps its key; its preimage is "" and never an error, for every invoice |
| MacaroonsDecode.ByteReader.Read | macaroons/decode.go:46-53 | fails only when nothing remains; otherwise copies as many bytes as fit and remain, and leaves the rest of the buffer as it was |
| MacaroonsDecode.ByteReader.ReadUint16 | macaroons/decode.go:37-40 | reads two bytes big-endian; no bytes left is EOF, one byte left is an unexpected EOF |
| MacaroonsDecode.DecodeMacIdentifier | macaroons/decode.go:34-59 | gives the identifier the byte layout describes; on any error it gives version 0 and zeroed arrays |
| MacaroonsDecode.ShortIdentifierFails | macaroons/decode.go:37-40 | fewer than two bytes is an error (EOF or unexpected EOF) |
| MacaroonsDecode.VersionIsBigEndian | macaroons/decode.go:37-58 | a non-zero big-endian version gives "unkown version"; success comes exactly for version 0 and at least 35 bytes |
| MacaroonsDecode.ShortSectionsPadded | macaroons/decode.go:45-55 | version 0 with 34 bytes or fewer fails; 35 to 65 bytes succeed with a zero-padded token id |
| MacaroonsDecode.TrailingBytesIgnored | macaroons/decode.go:45-55 | bytes past the 66th do not change the result |
| MacaroonsDecode.DecodeEncoded | macaroons/decode.go:34-59 | two zero bytes, a 32-byte hash and a 32-byte token id decode back to that hash and id |
| MacaroonsDecode.EncodeDecoded | macaroons/decode.go:34-59 | a 66-byte identifier that decodes is exactly the layout of what it decodes to |
| MacaroonsPairs.ParsePairs | macaroons/mint.go:50-57 | the loop's result is the map the pair specification builds, or the error for the first flag without '=' |
| MacaroonsPairs.ErrorPersists | macaroons/mint.go:51-55 | once a flag fails, later flags change nothing |
| MacaroonsPairs.FirstBadFlag | macaroons/mint.go:51-55 | parsing fails exactly when some flag has no '=', and then names the first such flag |
| MacaroonsPairs.KeysAreFlagKeys | macaroons/mint.go:50-57 | on success the map's keys are exactly the flags' keys |
| MacaroonsPairs.LastFlagWins | macaroons/mint.go:56 | a flag whose key no later flag repeats sets that key's value, so the last duplicate wins |
| MacaroonsPairs.SplitAtFirstEquals | macaroons/mint.go:50-56 | no flags give the empty map; `key=value` splits at the first '=', and the value keeps any later '=' |
| MacaroonsPairs.CutAtFirst | macaroons/mint.go:52 | cutting `key=value` at '=' gives back the key and the value when the key has no '=' |
| MacaroonsMint.MintMacaroon | macaroons/mint.go:41-104 | the result is the mint specification's; only when login and the caveats pass is one POST sent, carrying the location and the caveat map |
| MacaroonsMint.MintOutcomes | macaroons/mint.go:42-94 | login is checked first; a bad caveat fails naming the first flag without '='; a macaroon comes only from a decodable 200 |
| MacaroonsValidate.ValidateMacaroon | macaroons/validate.go:36-96 | the result is the validate specification's; only when login and the conditions pass is one POST sent, carrying the macaroon and the condition map |
| MacaroonsValidate.VerdictCases | macaroons/validate.go:77-92 | success comes exactly from a decodable 200; a decodable non-200 is an error carrying the server's `error` text |
| MacaroonsValidate.ValidateOutcomes | macaroons/validate.go:37-92 | login is checked first; a bad condition fails naming the first flag without '=' and sends nothing; a message comes only from a 200 |
| StorageUpdate.UpdateData | storage/update.go:50-59 | name and description are included exactly when non-empty and the price exactly when positive, with no other key; the map built is the one the command's specification sends |
| StorageUpdate.UpdateFile | storage/update.go:34-95 | the result is the update specification's; one PATCH to /v0/storage/<id> carrying the map only when all checks pass, nothing otherwise |
| StorageUpdate.EmptyValuesSendEmptyObject | storage/update.go:44-59 | flags given with empty or zero values pass the flag count check yet send an empty object |
| StorageUpdate.UpdateOutcomes | storage/update.go:35-82 | the checks run in order: login, the file id, the flag count; success needs a request and a 200 |
| StorageUpload.WriteForm | storage/upload.go:151-206 | the form is name, description, price in cents, in that order, plus the cover field exactly when a cover is given; it is the form the command's specification posts |
| StorageUpload.UploadFile | storage/upload.go:78-283 | the result and the requests sent are those of the upload specification for the flags, the disk, the request library and the replies, in which the presigned PUT goes out only when a PUT request can be built for the presigned URL |
| StorageUpload.PostForm | storage/upload.go:225-283 | after the form: the post, then the presigned PUT when the response names one and a PUT request can be built for it; when it cannot, the upload fails with "failed to upload file to presigned URL" after the post alone |
| StorageUpload.CheckUploadExactly | storage/upload.go:101-134 | the checks pass exactly with no file URL, a file path, a description and a numeric price; an empty name becomes the path's base, so it is never empty; any file URL is "not implemented" first |
| StorageUpload.DeadChecks | storage/upload.go:101-119 | the "only one of" and "name is required" checks can never fire |
| StorageUpload.PresignedOnlyWhenGiven | storage/upload.go:240-283 | the presigned PUT of the file happens exactly after a decodable 200 naming a presigned URL that a PUT request can be built for; a URL no request can be built for fails the upload with "failed to upload file to presigned URL" and nothing more sent; success yields domain + /v0/storage/download/ + file id |
| StorageUpload.NothingSentOnBadArguments | storage/upload.go:79-148 | nothing is sent unless the login, the checks and the files pass |
| StorageDownload.DownloadFile | storage/download.go:29-117 | a missing argument fails with nothing sent; otherwise the result is the save rule applied to the executor's GET of the resolved URL with no body |
| StorageDownload.SavedOnlyFromNamedOK | storage/download.go:58-103 | a file is saved exactly from a 200 with a non-empty file-name header, with the body as contents, after a GET with no body |
| StorageDownload.ResolveCases | storage/download.go:39-46 | a URI is fetched as given; anything else becomes domain + /v0/storage/download/ + the argument |
| GatewayAccess.AccessGateway | gateway/access.go:45-115 | a missing argument fails with nothing sent; otherwise the executor is called with the flag's method (sent as GET when empty), URL and body, and only a 200 gives the body |
| GatewayAccess.AccessOutcomes | gateway/access.go:73-99 | the method defaults to GET, and an empty method goes out as GET and the content type to application/json; an empty body flag means no body; success comes exactly from a 200; any other status is reported with its number |
| GatewayAccess.GatewayURLCases | gateway/access.go:55-62 | a URI is used as given; anything else becomes domain + /v0/gateway/access/ + the argument |
| RecipesExecute.ExtractInvoiceAndMacaroon | recipes/execute.go:37-63 | the part loop gives exactly the extraction specification: (invoice, macaroon) in that order, or an error |
| RecipesExecute.LastFieldSnoc | recipes/execute.go:47-55 | a later `invoice=`/`macaroon=` part overrides an earlier one; other parts are ignored |
| RecipesExecute.ExtractEitherOrder | recipes/execute.go:37-63 | a five-character scheme with comma-free `invoice="i"` and `macaroon="m"` parts, in either order, extracts (i, m) |
| RecipesExecute.ExtractionShape | recipes/execute.go:39-62 | a header shorter than five characters panics; success has both fields non-empty and without a leading or trailing quote |
| RecipesExecute.UnquoteQuoted | recipes/execute.go:50 | quotes around a quote-free value are trimmed off |
| RecipesExecute.BuildDataMap | recipes/execute.go:128-134 | the loop builds exactly the data map the specification describes |
| RecipesExecute.DataMapDropsMalformed | recipes/execute.go:128-134 | the data map is what the strict caveat parser builds from the pairs that contain '=': pairs without one are dropped, a later key wins |
| RecipesExecute.PayInvoice | recipes/execute.go:73-112 | one POST with the bearer token and the invoice; the result is the outcome of its reply |
| RecipesExecute.PaymentIgnoresStatus | recipes/execute.go:97-111 | any decodable reply, of any status, yields a preimage; on a 200 the result agrees with the L402 client's payment |
| RecipesExecute.ExecuteCodeRecipe | recipes/execute.go:122-204 | the result and the requests sent are those of the recipe run specification over the replies; the resend goes out with no body, since the first POST has drained the buffer |
| RecipesExecute.OnlyA402Proceeds | recipes/execute.go:152-154 | a first status other than 402 is an error after one request, with no payment and no confirmation |
| RecipesExecute.PaymentThenResend | recipes/execute.go:145-179 | at most three requests; a payment of the extracted invoice comes only after a 402 that extracts; the resend comes only after a preimage, carries `LSAT mac:preimage` and has no body |
| Version.ShippedIs022 | version/version.go:9-28 | the shipped build reports "0.2.2" |
| Version.CommitReplacesSemver | version/version.go:24-31 | a non-empty commit is the whole version string, whatever the numbers |
| Version.SemverRoundTrip | version/version.go:25-28 | without a commit the string splits on dots into the three numbers' decimals, which read back as the numbers |

## Left out

- Network I/O is the `Http.Ports` script. Not modelled: JSON encoding (a decoded body is a map of string fields, or none), multipart encoding, `io.ReadAll` failures, and closing bodies.
- Client.ExecuteL402Request: the callers in storage/download.go:58 and gateway/access.go:82 pass a fourth argument (a content type) that client/client.go:71 does not take. The model follows client/client.go, so GatewayAccess.AccessGateway computes the content type but does not send it.
- Client.ExecuteL402Request: the resent request carries the original body. Whether Go's transport can resend a consumed body is not modelled.
- Client.ExecuteL402Request: the discarded line read and the consent read share one script of input lines. An exhausted script, or a last line without its newline, is a read error.
- Client.DecodePrice: `zpay32.Decode` (bech32 and checksum) is a parameter. It returns an optional millisatoshi amount or an error.
- Credentials.QuotedChallenge: the regular expressions are stated directly as a leftmost-match scan, with no general regex engine. The test case at credentials/credentials_test.go:31-37 expects the unquoted `L402 macaroon=1234 invoice=1234` to parse, but the code rejects it; the model follows the code (Credentials.UnquotedChallengeRejected).
- Client.NetworkTag: Go strings are bytes, and `len`, `strings.IndexAny` and slicing count bytes, while the model's strings count characters; `strings.ToLower` lowers all of Unicode, while the model lowers ASCII letters only. The two agree on ASCII invoices, which BOLT #11 invoices are.
- Client.MalformedInvoices: the length and digit-position checks count characters, not bytes, so an invoice with a multi-byte character before its first digit (such as "é1") is classified differently from Go.
- RecipesExecute.ExtractionShape: the five-character scheme cut (`header[5:]`) counts characters, not bytes, so a header of fewer than five characters but at least five bytes panics in the model and not in Go.
- Headers are a map keyed by the exact names the code uses. Go's canonicalisation of header names is not modelled.
- `fmt.Errorf` with `%w` and `%v` is the `Wrapped` error value rather than formatted text. A Go panic (the recipe parser's `header[5:]`) is an `Err(Panic(..))` result.
- `client.RequiresLogin`, `config.GetConfig` and `client.NewHTTPClient` are not part of this model. Login is a boolean parameter, the configured domain is `HttpClient.domain`, and configuration and client-construction failures are not modelled.
- `cli.Exit` codes, printing and `slog` are not modelled. A command's printed result is its return value.
- StorageUpload.UploadFile: `ExecuteMultipartRequest` is not part of this model. The form post records only the path and the fields.
- StorageUpload.UploadFile: the price in cents (`ParseFloat` and `math.Floor`) is the `cents` parameter, and base64 encoding of the cover is a parameter of the disk.
- StorageUpload.UploadFile: failures of `WriteField`, of closing the writer and of `file.Stat` are not modelled.
- StorageDownload.DownloadFile: `os.Create` and `io.Copy` are not performed. The saved file is the returned name and contents, so their failures are not modelled.
- RecipesExecute.ExecuteCodeRecipe: the second `http.NewRequest` for the resend is taken to succeed whenever the first did, since it uses the same method and URL. The decoded recipe result is returned instead of printed.
- `url.ParseRequestURI` is the `isURI` parameter. Whether `http.NewRequest` accepts a method and URL is the `newRequestOk` field of `Client.Library`; it also decides whether the presigned PUT of an upload can be built.
- Version.VersionOf: Go's `Major`, `Minor` and `Patch` are `int` variables; the model takes non-negative numbers, so the spelling of a negative package variable is not modelled.
- SQL: the schema, migrations and the `GetStore` singleton are not modelled. `CURRENT_TIMESTAMP` is a `now` parameter compared numerically with `expires_at`. Ids are a counter bounded by SQLite's largest rowid, a choice of the model: SQLite may hand out the largest rowid again after its row is deleted. Queries without ORDER BY that return several rows give them in table order.
- Wallets.DeleteWallet: wallets/wallets.go:124,127 call the delete helpers with a store argument that wallets/alby.go:34 and wallets/zbd.go:27 do not take. The model passes the store explicitly.
- wallets/wallet.go and store/models.go re-declare what wallets/wallets.go and store/api_keys.go declare. They are not part of this model.
- The REST command handlers without logic of their own are not part of this model. These are the account, apikeys, payout, users and gateway/storage CRUD commands, recipes add and details, and the `Command()` registries.
