/** store/credentials.go: the `credentials` table of the local database,
    held in memory. The model gives rows increasing ids from 1 (the schema
    is not part of this model, and SQLite may reuse the largest rowid once
    its row is deleted); a statement listed in `failing` makes the database
    report an error and change nothing. */
module CredentialStore {
  import opened Errors
  import opened Values
  import opened Credentials

  datatype Statement = InsertRow | SelectByExternalID

  /** The largest rowid SQLite hands out. */
  const MaxRowID: int := 0x7FFF_FFFF_FFFF_FFFF

  /** GetL402Credentials' verdict on a row it selected. */
  function Checked(externalID: string, row: L402Credentials): Result<L402Credentials> {
    if row.macaroon == "" || row.preimage == "" then
      Err(Failure("invalid L402 credentials for " + externalID + " (empty macaroon/preimage)"))
    else Ok(row)
  }

  /** Every result GetL402Credentials may give: `LIMIT 1` without
      `ORDER BY` leaves open which matching row is read. */
  function Answers(rows: seq<L402Credentials>, failing: set<Statement>, externalID: string): set<Result<L402Credentials>> {
    if SelectByExternalID in failing then
      {Err(Wrapped("failed to get L402 credentials for " + externalID, DatabaseFailure))}
    else if forall k | 0 <= k < |rows| :: rows[k].externalID != externalID then
      {Err(ErrNoCredentialsFound)}
    else
      set k | 0 <= k < |rows| && rows[k].externalID == externalID :: Checked(externalID, rows[k])
  }

  class CredentialTable {
    var rows: seq<L402Credentials>
    var nextID: int
    var failing: set<Statement>

    /** Ids are positive, below `nextID` and increasing with insertion order. */
    ghost predicate Valid()
      reads this
    {
      && 1 <= nextID <= MaxRowID + 1
      && (forall k | 0 <= k < |rows| :: 1 <= rows[k].id < nextID)
      && (forall k, l | 0 <= k < l < |rows| :: rows[k].id < rows[l].id)
    }

    constructor (failing: set<Statement>)
      ensures Valid() && rows == [] && nextID == 1 && this.failing == failing
    {
      rows := [];
      nextID := 1;
      this.failing := failing;
    }

    /** InsertL402Credentials: stamps the caller's record with the current
        time, whatever happens next, and appends it as a new row. The record
        itself keeps its id; only the row gets the new one. */
    method InsertL402Credentials(creds: L402Credentials, now: Timestamp) returns (stamped: L402Credentials, err: Option<Error>)
      requires Valid()
      modifies this`rows, this`nextID
      ensures Valid()
      ensures stamped == creds.(createdAt := now)
      ensures InsertRow in failing || old(nextID) > MaxRowID ==>
        err == Some(Wrapped("failed to insert L402 credentials", DatabaseFailure))
        && rows == old(rows) && nextID == old(nextID)
      ensures InsertRow !in failing && old(nextID) <= MaxRowID ==>
        err == None && rows == old(rows) + [stamped.(id := old(nextID))] && nextID == old(nextID) + 1
    {
      stamped := creds.(createdAt := now);
      if InsertRow in failing || nextID > MaxRowID {
        return stamped, Some(Wrapped("failed to insert L402 credentials", DatabaseFailure));
      }
      rows := rows + [stamped.(id := nextID)];
      nextID := nextID + 1;
      err := None;
    }

    /** GetL402Credentials: one row stored for `externalID`, refused when its
        macaroon or preimage is empty. */
    method GetL402Credentials(externalID: string) returns (r: Result<L402Credentials>)
      ensures r in Answers(rows, failing, externalID)
    {
      if SelectByExternalID in failing {
        return Err(Wrapped("failed to get L402 credentials for " + externalID, DatabaseFailure));
      }
      if forall k | 0 <= k < |rows| :: rows[k].externalID != externalID {
        return Err(ErrNoCredentialsFound);
      }
      var k :| 0 <= k < |rows| && rows[k].externalID == externalID;
      var row := rows[k];
      if row.macaroon == "" || row.preimage == "" {
        return Err(Failure("invalid L402 credentials for " + externalID + " (empty macaroon/preimage)"));
      }
      return Ok(row);
    }
  }

  /** A credential read back is a stored row for that id, and never one
      with an empty macaroon or preimage. */
  lemma ReadIsStoredAndComplete(rows: seq<L402Credentials>, failing: set<Statement>, externalID: string, r: Result<L402Credentials>)
    requires r in Answers(rows, failing, externalID)
    ensures r.Ok? ==> r.value in rows && r.value.externalID == externalID
                      && r.value.macaroon != "" && r.value.preimage != ""
  {
  }

  /** The "not found" error comes exactly when the lookup ran and no row has
      the id. */
  lemma NotFoundIffNoRow(rows: seq<L402Credentials>, failing: set<Statement>, externalID: string)
    ensures Err(ErrNoCredentialsFound) in Answers(rows, failing, externalID)
      <==> SelectByExternalID !in failing && forall k | 0 <= k < |rows| :: rows[k].externalID != externalID
    ensures SelectByExternalID !in failing && (forall k | 0 <= k < |rows| :: rows[k].externalID != externalID)
      ==> Answers(rows, failing, externalID) == {Err(ErrNoCredentialsFound)}
  {
    var m := "invalid L402 credentials for " + externalID + " (empty macaroon/preimage)";
    assert m[0] != ErrNoCredentialsFound.message[0];
  }

  /** A record inserted under a fresh external id is what a later lookup
      gives back, id and time stamp included, when its macaroon and
      preimage are set. */
  lemma InsertedIsFound(rows: seq<L402Credentials>, failing: set<Statement>, row: L402Credentials)
    requires SelectByExternalID !in failing
    requires forall k | 0 <= k < |rows| :: rows[k].externalID != row.externalID
    requires row.macaroon != "" && row.preimage != ""
    ensures Answers(rows + [row], failing, row.externalID) == {Ok(row)}
  {
    var s := rows + [row];
    assert s[|rows|].externalID == row.externalID;
    forall r | r in Answers(s, failing, row.externalID) ensures r == Ok(row) {
      var k :| 0 <= k < |s| && s[k].externalID == row.externalID && r == Checked(row.externalID, s[k]);
      assert k == |rows|;
    }
  }

  /** Two complete rows sharing an external id are both possible answers:
      which one is read is not fixed. */
  lemma LookupNotDeterminate(rows: seq<L402Credentials>, failing: set<Statement>, i: nat, j: nat)
    requires SelectByExternalID !in failing
    requires i < |rows| && j < |rows| && rows[i].externalID == rows[j].externalID
    requires rows[i].macaroon != "" && rows[i].preimage != "" && rows[j].macaroon != "" && rows[j].preimage != ""
    ensures Ok(rows[i]) in Answers(rows, failing, rows[i].externalID)
    ensures Ok(rows[j]) in Answers(rows, failing, rows[i].externalID)
  {
    assert Checked(rows[i].externalID, rows[i]) == Ok(rows[i]);
    assert Checked(rows[i].externalID, rows[j]) == Ok(rows[j]);
  }
}
