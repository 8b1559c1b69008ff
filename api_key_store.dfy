/** store/api_keys.go: the `api_keys` table, held in memory. The SQL
    engine's CURRENT_TIMESTAMP is the parameter `now`; a statement listed in
    `failing` makes the database report an error and change nothing. */
module ApiKeyStore {
  import opened Errors
  import opened Values

  datatype APIKey = APIKey(id: Uint64, key: string, userID: Int64, expiresAt: Timestamp, enabled: bool)

  datatype Statement = InsertKey | SelectActiveKey | SelectActiveKeys | UpdateEnabled

  /** The largest rowid SQLite hands out. */
  const MaxRowID: int := 0x7FFF_FFFF_FFFF_FFFF

  /** `expires_at > CURRENT_TIMESTAMP AND enabled = 1` */
  predicate Active(k: APIKey, now: Timestamp) {
    k.expiresAt > now && k.enabled
  }

  /** The active keys, in table order: the model takes the order of the
      table for a query that has no ORDER BY and so promises none. */
  function ActiveKeys(keys: seq<APIKey>, now: Timestamp): seq<APIKey> {
    if keys == [] then []
    else (if Active(keys[0], now) then [keys[0]] else []) + ActiveKeys(keys[1..], now)
  }

  /** `UPDATE api_keys SET enabled = 0 WHERE id = ?` */
  function Disabled(keys: seq<APIKey>, id: Uint64): seq<APIKey> {
    if keys == [] then []
    else [if keys[0].id == id then keys[0].(enabled := false) else keys[0]] + Disabled(keys[1..], id)
  }

  class APIKeyTable {
    var keys: seq<APIKey>
    var nextID: int
    var failing: set<Statement>

    /** Ids are positive and below `nextID`, so a new key never reuses one. */
    ghost predicate Valid()
      reads this
    {
      && 1 <= nextID <= MaxRowID + 1
      && (forall k | k in keys :: 1 <= k.id < nextID)
    }

    constructor (failing: set<Statement>)
      ensures Valid() && keys == [] && nextID == 1 && this.failing == failing
    {
      keys := [];
      nextID := 1;
      this.failing := failing;
    }

    /** InsertAPIKey: stores an enabled key and returns its new row id. */
    method InsertAPIKey(key: string, expiresAt: Timestamp, userID: Int64) returns (id: Int64, err: Option<Error>)
      requires Valid()
      modifies this`keys, this`nextID
      ensures Valid()
      ensures InsertKey in failing || old(nextID) > MaxRowID ==>
        id == 0 && err == Some(DatabaseFailure) && keys == old(keys) && nextID == old(nextID)
      ensures InsertKey !in failing && old(nextID) <= MaxRowID ==>
        && id == old(nextID) && err == None
        && keys == old(keys) + [APIKey(old(nextID), key, userID, expiresAt, true)]
        && nextID == old(nextID) + 1
    {
      if InsertKey in failing || nextID > MaxRowID {
        return 0, Some(DatabaseFailure);
      }
      id := nextID;
      keys := keys + [APIKey(nextID, key, userID, expiresAt, true)];
      nextID := nextID + 1;
      err := None;
    }

    /** GetAPIKey: the key of some active row, or "" without an error when
        there is none (`LIMIT 1` without `ORDER BY` leaves open which). */
    method GetAPIKey(now: Timestamp) returns (r: Result<string>)
      ensures SelectActiveKey in failing ==> r == Err(DatabaseFailure)
      ensures SelectActiveKey !in failing ==> r.Ok?
      ensures SelectActiveKey !in failing && (forall k | k in keys :: !Active(k, now)) ==> r == Ok("")
      ensures SelectActiveKey !in failing && (exists k | k in keys :: Active(k, now)) ==>
        exists k | k in keys :: Active(k, now) && r == Ok(k.key)
    {
      if SelectActiveKey in failing {
        return Err(DatabaseFailure);
      }
      if k :| k in keys && Active(k, now) {
        return Ok(k.key);
      }
      return Ok("");
    }

    /** GetEnabledAPIKeys: every active row. */
    method GetEnabledAPIKeys(now: Timestamp) returns (r: Result<seq<APIKey>>)
      ensures SelectActiveKeys in failing ==> r == Err(DatabaseFailure)
      ensures SelectActiveKeys !in failing ==> r == Ok(ActiveKeys(keys, now))
    {
      if SelectActiveKeys in failing {
        return Err(DatabaseFailure);
      }
      return Ok(ActiveKeys(keys, now));
    }

    /** DisableAPIKey: clears `enabled` on the rows with id `id`; an
        unknown id changes nothing and is no error. */
    method DisableAPIKey(id: Uint64) returns (err: Option<Error>)
      requires Valid()
      modifies this`keys
      ensures Valid()
      ensures UpdateEnabled in failing ==> err == Some(DatabaseFailure) && keys == old(keys)
      ensures UpdateEnabled !in failing ==> err == None && keys == Disabled(old(keys), id)
    {
      if UpdateEnabled in failing {
        return Some(DatabaseFailure);
      }
      DisabledChangesOnlyEnabled(keys, id);
      keys := Disabled(keys, id);
      err := None;
    }
  }

  /** The listing holds exactly the enabled, unexpired keys. */
  lemma {:induction false} ActiveKeysExactly(keys: seq<APIKey>, now: Timestamp)
    ensures forall k :: k in ActiveKeys(keys, now) <==> k in keys && Active(k, now)
  {
    if keys != [] {
      ActiveKeysExactly(keys[1..], now);
      assert keys == [keys[0]] + keys[1..];
    }
  }

  /** Disabling touches only the `enabled` field of the rows with that id:
      rows stay in place, other rows and other fields are unchanged. */
  lemma {:induction false} DisabledChangesOnlyEnabled(keys: seq<APIKey>, id: Uint64)
    ensures |Disabled(keys, id)| == |keys|
    ensures forall i | 0 <= i < |keys| ::
      Disabled(keys, id)[i] == if keys[i].id == id then keys[i].(enabled := false) else keys[i]
  {
    if keys != [] {
      DisabledChangesOnlyEnabled(keys[1..], id);
    }
  }

  /** Once disabled, a key is never active again, whatever the time. */
  lemma DisabledNeverActive(keys: seq<APIKey>, id: Uint64, now: Timestamp)
    ensures forall k | k in ActiveKeys(Disabled(keys, id), now) :: k.id != id
    ensures forall k | k in Disabled(keys, id) && k.id == id :: !Active(k, now)
  {
    DisabledChangesOnlyEnabled(keys, id);
    ActiveKeysExactly(Disabled(keys, id), now);
  }
}
