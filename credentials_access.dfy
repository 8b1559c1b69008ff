/** credentials/credentials.go, GetL402Credentials and SaveL402Credentials:
    the package-level wrappers that reach the credential store and wrap its
    errors rather than swallowing them. */
module CredentialsAccess {
  import opened Errors
  import opened Values
  import opened Credentials
  import opened CredentialStore

  /** What the wrapper makes of the store's answer. */
  function FromStore(answer: Result<L402Credentials>): Result<L402Credentials> {
    match answer
    case Ok(creds) => Ok(creds)
    case Err(e) => Err(Wrapped("failed to get L402 credentials from db", e))
  }

  /** GetL402Credentials: the store's credential, or its error wrapped. */
  method GetL402Credentials(store: CredentialTable, externalID: string) returns (r: Result<L402Credentials>)
    ensures exists answer | answer in Answers(store.rows, store.failing, externalID) :: r == FromStore(answer)
  {
    var answer := store.GetL402Credentials(externalID);
    r := FromStore(answer);
  }

  /** SaveL402Credentials: the store's insert, its error wrapped; the
      caller's record comes back stamped either way. */
  method SaveL402Credentials(store: CredentialTable, creds: L402Credentials, now: Timestamp)
    returns (stamped: L402Credentials, err: Option<Error>)
    requires store.Valid()
    modifies store`rows, store`nextID
    ensures store.Valid()
    ensures stamped == creds.(createdAt := now)
    ensures InsertRow in store.failing || old(store.nextID) > MaxRowID ==>
      err == Some(Wrapped("failed to insert credentials to db", Wrapped("failed to insert L402 credentials", DatabaseFailure)))
      && store.rows == old(store.rows)
    ensures InsertRow !in store.failing && old(store.nextID) <= MaxRowID ==>
      err == None && store.rows == old(store.rows) + [stamped.(id := old(store.nextID))]
  {
    var e;
    stamped, e := store.InsertL402Credentials(creds, now);
    if e.Some? {
      return stamped, Some(Wrapped("failed to insert credentials to db", e.value));
    }
    err := None;
  }

  /** The wrapper passes a credential through unchanged and keeps every
      store error recognisable: a missing credential still `errors.Is`
      ErrNoCredentialsFound. */
  lemma WrapperKeepsCause(answer: Result<L402Credentials>)
    ensures answer.Ok? ==> FromStore(answer) == answer
    ensures answer.Err? ==> FromStore(answer).Err? && Is(FromStore(answer).error, answer.error)
    ensures answer.Err? ==> FromStore(answer).error != answer.error
  {
  }

  /** For an id with no row, every possible result of the wrapper is an
      error that is ErrNoCredentialsFound underneath. */
  lemma MissingCredentialsDetectable(rows: seq<L402Credentials>, failing: set<Statement>, externalID: string)
    requires SelectByExternalID !in failing
    requires forall k | 0 <= k < |rows| :: rows[k].externalID != externalID
    ensures forall answer | answer in Answers(rows, failing, externalID) ::
      FromStore(answer).Err? && Is(FromStore(answer).error, ErrNoCredentialsFound)
  {
    NotFoundIffNoRow(rows, failing, externalID);
  }
}
