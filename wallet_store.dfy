/** store/wallets.go: the `wallets` table, the single-slot `default_wallet`
    table and the `token_based_preimage_provider` table, held in memory.
    The model hands out wallet ids from a counter that only grows (a
    choice of the model: a rowid table without AUTOINCREMENT may hand the
    largest id out again once its row is deleted, and the schema is not
    part of this model); a statement listed in `failing` makes the database report an error and
    change nothing. No statement runs inside a transaction. Each writing
    method is specified by a function from the tables before to the tables
    after, so that the wallet package's sequences of writes can be
    specified by composing them. */
module WalletStore {
  import opened Errors
  import opened Values

  /** wallets.Wallet */
  datatype Wallet = Wallet(id: Uint64, walletType: string, createdAt: Timestamp)

  /** A row of the token table. */
  datatype TokenRow = TokenRow(walletID: Uint64, token: string)

  datatype Statement =
    | InsertWalletRow | SelectWallet | DeleteWalletRow
    | DeleteDefault | InsertDefault | SelectDefault
    | InsertToken | SelectToken | DeleteTokens

  /** The largest rowid SQLite hands out. */
  const MaxRowID: int := 0x7FFF_FFFF_FFFF_FFFF

  /** The three tables, and the next wallet id. */
  datatype Tables = Tables(wallets: seq<Wallet>, defaults: seq<Uint64>, tokens: seq<TokenRow>, nextID: nat)

  /** The tables after a write, the id it returned (0 when it returns none
      or failed) and its error. */
  datatype Outcome = Outcome(tables: Tables, id: Uint64, err: Option<Error>)

  /** No two wallets share an id, as the primary key guarantees. */
  predicate UniqueIds(wallets: seq<Wallet>) {
    forall i, j | 0 <= i < j < |wallets| :: wallets[i].id != wallets[j].id
  }

  /** Ids are positive, unique and below `nextID`, so a new wallet never
      reuses one; default_wallet holds at most one row, since every write
      to it first empties it. */
  predicate Consistent(t: Tables) {
    && 1 <= t.nextID <= MaxRowID + 1
    && (forall w | w in t.wallets :: 1 <= w.id < t.nextID)
    && UniqueIds(t.wallets)
    && |t.defaults| <= 1
  }

  /** The wallets other than those with id `id`, in order. */
  function WalletsExcept(wallets: seq<Wallet>, id: Uint64): seq<Wallet> {
    if wallets == [] then []
    else (if wallets[0].id == id then [] else [wallets[0]]) + WalletsExcept(wallets[1..], id)
  }

  /** The token rows of wallets other than `walletID`, in order. */
  function TokensExcept(tokens: seq<TokenRow>, walletID: Uint64): seq<TokenRow> {
    if tokens == [] then []
    else (if tokens[0].walletID == walletID then [] else [tokens[0]]) + TokensExcept(tokens[1..], walletID)
  }

  // ---------------------------------------------------------------------
  // The writes, as functions of the tables

  /** SetDefaultWallet: empty default_wallet, then store `walletID`. */
  function SetDefault(t: Tables, failing: set<Statement>, walletID: Uint64): Outcome {
    if DeleteDefault in failing then
      Outcome(t, 0, Some(Wrapped("failed to delete default wallet", DatabaseFailure)))
    else if InsertDefault in failing then
      Outcome(t.(defaults := []), 0, Some(Wrapped("failed to set default wallet", DatabaseFailure)))
    else
      Outcome(t.(defaults := [walletID]), 0, None)
  }

  /** InsertWallet: add the wallet under the next id, then make it the
      default; the id comes back only when both steps succeed. */
  function AddWallet(t: Tables, failing: set<Statement>, walletType: string, now: Timestamp): Outcome {
    if InsertWalletRow in failing || t.nextID > MaxRowID then
      Outcome(t, 0, Some(DatabaseFailure))
    else
      var added := t.(wallets := t.wallets + [Wallet(t.nextID, walletType, now)], nextID := t.nextID + 1);
      var made := SetDefault(added, failing, t.nextID);
      Outcome(made.tables, if made.err.None? then t.nextID else 0, made.err)
  }

  /** DeleteWallet: remove the wallet rows with id `id`. */
  function RemoveWallet(t: Tables, failing: set<Statement>, id: Uint64): Outcome {
    if DeleteWalletRow in failing then Outcome(t, 0, Some(DatabaseFailure))
    else Outcome(t.(wallets := WalletsExcept(t.wallets, id)), 0, None)
  }

  /** InsertWalletToken: add a token row. */
  function AddToken(t: Tables, failing: set<Statement>, walletID: Uint64, token: string): Outcome {
    if InsertToken in failing then Outcome(t, 0, Some(DatabaseFailure))
    else Outcome(t.(tokens := t.tokens + [TokenRow(walletID, token)]), 0, None)
  }

  /** DeleteWalletToken: remove every token row of `walletID`. */
  function RemoveTokens(t: Tables, failing: set<Statement>, walletID: Uint64): Outcome {
    if DeleteTokens in failing then Outcome(t, 0, Some(DatabaseFailure))
    else Outcome(t.(tokens := TokensExcept(t.tokens, walletID)), 0, None)
  }

  // ---------------------------------------------------------------------
  // The reads, as the sets of results they may give

  /** GetWallet's possible results. */
  function WalletAnswers(t: Tables, failing: set<Statement>, id: Uint64): set<Result<Wallet>> {
    if SelectWallet in failing then {Err(DatabaseFailure)}
    else if forall w | w in t.wallets :: w.id != id then {Err(ErrNoWalletFound)}
    else set w | w in t.wallets && w.id == id :: Ok(w)
  }

  /** GetWalletToken's possible results: with no row, the raw
      sql.ErrNoRows rather than ErrNoWalletFound. */
  function TokenAnswers(t: Tables, failing: set<Statement>, walletID: Uint64): set<Result<string>> {
    if SelectToken in failing then {Err(DatabaseFailure)}
    else if forall r | r in t.tokens :: r.walletID != walletID then {Err(NoRows)}
    else set r | r in t.tokens && r.walletID == walletID :: Ok(r.token)
  }

  /** GetDefaultWallet's result. */
  function DefaultAnswer(t: Tables, failing: set<Statement>): Result<Uint64> {
    if SelectDefault in failing then Err(DatabaseFailure)
    else if t.defaults == [] then Err(ErrNoWalletFound)
    else Ok(t.defaults[0])
  }

  class WalletTable {
    var wallets: seq<Wallet>
    /** The rows of default_wallet. */
    var defaults: seq<Uint64>
    var tokens: seq<TokenRow>
    var nextID: nat
    var failing: set<Statement>

    function State(): Tables
      reads this
    {
      Tables(wallets, defaults, tokens, nextID)
    }

    ghost predicate Valid()
      reads this
    {
      Consistent(State())
    }

    constructor (failing: set<Statement>)
      ensures Valid() && State() == Tables([], [], [], 1) && this.failing == failing
    {
      wallets := [];
      defaults := [];
      tokens := [];
      nextID := 1;
      this.failing := failing;
    }

    /** GetDefaultWallet: the id in default_wallet. */
    method GetDefaultWallet() returns (r: Result<Uint64>)
      ensures r == DefaultAnswer(State(), failing)
    {
      if SelectDefault in failing {
        return Err(DatabaseFailure);
      }
      if defaults == [] {
        return Err(ErrNoWalletFound);
      }
      return Ok(defaults[0]);
    }

    /** SetDefaultWallet */
    method SetDefaultWallet(walletID: Uint64) returns (err: Option<Error>)
      requires Valid()
      modifies this`defaults
      ensures Valid()
      ensures Outcome(State(), 0, err) == SetDefault(old(State()), failing, walletID)
    {
      if DeleteDefault in failing {
        return Some(Wrapped("failed to delete default wallet", DatabaseFailure));
      }
      defaults := [];
      if InsertDefault in failing {
        return Some(Wrapped("failed to set default wallet", DatabaseFailure));
      }
      defaults := [walletID];
      err := None;
    }

    /** InsertWallet */
    method InsertWallet(walletType: string, now: Timestamp) returns (id: Uint64, err: Option<Error>)
      requires Valid()
      modifies this`wallets, this`nextID, this`defaults
      ensures Valid()
      ensures Outcome(State(), id, err) == AddWallet(old(State()), failing, walletType, now)
    {
      if InsertWalletRow in failing || nextID > MaxRowID {
        return 0, Some(DatabaseFailure);
      }
      var newID := nextID;
      wallets := wallets + [Wallet(newID, walletType, now)];
      nextID := nextID + 1;
      err := SetDefaultWallet(newID);
      id := if err.None? then newID else 0;
    }

    /** GetWallet */
    method GetWallet(id: Uint64) returns (r: Result<Wallet>)
      ensures r in WalletAnswers(State(), failing, id)
    {
      if SelectWallet in failing {
        return Err(DatabaseFailure);
      }
      if w :| w in wallets && w.id == id {
        return Ok(w);
      }
      return Err(ErrNoWalletFound);
    }

    /** DeleteWallet */
    method DeleteWallet(id: Uint64) returns (err: Option<Error>)
      requires Valid()
      modifies this`wallets
      ensures Valid()
      ensures Outcome(State(), 0, err) == RemoveWallet(old(State()), failing, id)
    {
      if DeleteWalletRow in failing {
        return Some(DatabaseFailure);
      }
      WalletsExceptKeepsOthers(wallets, id);
      WalletsExceptUnique(wallets, id);
      wallets := WalletsExcept(wallets, id);
      err := None;
    }

    /** InsertWalletToken */
    method InsertWalletToken(walletID: Uint64, token: string) returns (err: Option<Error>)
      requires Valid()
      modifies this`tokens
      ensures Valid()
      ensures Outcome(State(), 0, err) == AddToken(old(State()), failing, walletID, token)
    {
      if InsertToken in failing {
        return Some(DatabaseFailure);
      }
      tokens := tokens + [TokenRow(walletID, token)];
      err := None;
    }

    /** GetWalletToken */
    method GetWalletToken(walletID: Uint64) returns (r: Result<string>)
      ensures r in TokenAnswers(State(), failing, walletID)
    {
      if SelectToken in failing {
        return Err(DatabaseFailure);
      }
      if row :| row in tokens && row.walletID == walletID {
        return Ok(row.token);
      }
      return Err(NoRows);
    }

    /** DeleteWalletToken */
    method DeleteWalletToken(walletID: Uint64) returns (err: Option<Error>)
      requires Valid()
      modifies this`tokens
      ensures Valid()
      ensures Outcome(State(), 0, err) == RemoveTokens(old(State()), failing, walletID)
    {
      if DeleteTokens in failing {
        return Some(DatabaseFailure);
      }
      tokens := TokensExcept(tokens, walletID);
      err := None;
    }
  }

  // ---------------------------------------------------------------------
  // Properties

  /** Deleting by id keeps exactly the wallets with another id. */
  lemma {:induction false} WalletsExceptKeepsOthers(wallets: seq<Wallet>, id: Uint64)
    ensures forall w :: w in WalletsExcept(wallets, id) <==> w in wallets && w.id != id
  {
    if wallets != [] {
      WalletsExceptKeepsOthers(wallets[1..], id);
      assert wallets == [wallets[0]] + wallets[1..];
    }
  }

  /** Deleting by id keeps the ids unique. */
  lemma {:induction false} WalletsExceptUnique(wallets: seq<Wallet>, id: Uint64)
    requires UniqueIds(wallets)
    ensures UniqueIds(WalletsExcept(wallets, id))
  {
    if wallets != [] {
      var rest := WalletsExcept(wallets[1..], id);
      TailUnique(wallets);
      WalletsExceptUnique(wallets[1..], id);
      if wallets[0].id != id {
        WalletsExceptKeepsOthers(wallets[1..], id);
        forall v | v in rest ensures v.id != wallets[0].id {
          var k :| 0 <= k < |wallets[1..]| && wallets[1..][k] == v;
          assert wallets[1..][k] == wallets[k + 1];
        }
        ConsUnique(wallets[0], rest);
      }
    }
  }

  /** Dropping the first wallet keeps the ids unique. */
  lemma TailUnique(wallets: seq<Wallet>)
    requires wallets != [] && UniqueIds(wallets)
    ensures UniqueIds(wallets[1..])
  {
    forall i, j | 0 <= i < j < |wallets[1..]| ensures wallets[1..][i].id != wallets[1..][j].id {
      assert wallets[1..][i] == wallets[i + 1] && wallets[1..][j] == wallets[j + 1];
    }
  }

  /** A wallet whose id no other has, put in front, keeps the ids unique. */
  lemma ConsUnique(w: Wallet, rest: seq<Wallet>)
    requires UniqueIds(rest) && forall v | v in rest :: v.id != w.id
    ensures UniqueIds([w] + rest)
  {
    var out := [w] + rest;
    forall i, j | 0 <= i < j < |out| ensures out[i].id != out[j].id {
      assert out[j] == rest[j - 1];
      if i > 0 {
        assert out[i] == rest[i - 1];
      }
    }
  }

  /** Deleting a wallet's tokens keeps exactly the other wallets' tokens. */
  lemma {:induction false} TokensExceptKeepsOthers(tokens: seq<TokenRow>, walletID: Uint64)
    ensures forall t :: t in TokensExcept(tokens, walletID) <==> t in tokens && t.walletID != walletID
  {
    if tokens != [] {
      TokensExceptKeepsOthers(tokens[1..], walletID);
      assert tokens == [tokens[0]] + tokens[1..];
    }
  }

  /** SetDefaultWallet touches only default_wallet and does not look at the
      wallets: on success the single default is `walletID`, existing or not;
      when the insert fails after the delete, no default is left. */
  lemma SetDefaultSingleSlot(t: Tables, failing: set<Statement>, walletID: Uint64)
    ensures var o := SetDefault(t, failing, walletID);
      && o.tables.wallets == t.wallets && o.tables.tokens == t.tokens && o.tables.nextID == t.nextID
      && (o.err.None? <==> DeleteDefault !in failing && InsertDefault !in failing)
      && (o.err.None? ==> o.tables.defaults == [walletID])
      && (DeleteDefault !in failing && InsertDefault in failing ==> o.tables.defaults == [])
  {
  }

  /** InsertWallet adds one wallet of the given type and time under a fresh
      id and makes it the default; when the default cannot be set the new
      row stays although 0 comes back. Tokens are untouched. */
  lemma AddWalletFresh(t: Tables, failing: set<Statement>, walletType: string, now: Timestamp)
    requires Consistent(t)
    ensures var o := AddWallet(t, failing, walletType, now);
      && o.tables.tokens == t.tokens
      && (o.err.None? ==>
            && o.id == t.nextID && (forall w | w in t.wallets :: w.id != o.id)
            && o.tables.wallets == t.wallets + [Wallet(o.id, walletType, now)]
            && o.tables.defaults == [o.id])
      && (o.err.Some? ==> o.id == 0)
      && (InsertWalletRow !in failing && t.nextID <= MaxRowID && o.err.Some? ==>
            o.tables.wallets == t.wallets + [Wallet(t.nextID, walletType, now)])
  {
  }

  /** DeleteWallet removes the wallet and nothing else: a default naming it
      dangles and its tokens remain. */
  lemma RemoveWalletOnlyWallet(t: Tables, failing: set<Statement>, id: Uint64)
    requires DeleteWalletRow !in failing
    ensures var o := RemoveWallet(t, failing, id);
      && o.err.None?
      && (forall w :: w in o.tables.wallets <==> w in t.wallets && w.id != id)
      && o.tables.defaults == t.defaults && o.tables.tokens == t.tokens
  {
    WalletsExceptKeepsOthers(t.wallets, id);
  }

  /** GetWallet gives the stored wallet with that id, ErrNoWalletFound when
      there is none, or the database's error. */
  lemma WalletAnswersCases(t: Tables, failing: set<Statement>, id: Uint64, r: Result<Wallet>)
    requires r in WalletAnswers(t, failing, id)
    ensures r.Ok? ==> r.value in t.wallets && r.value.id == id
    ensures r == Err(ErrNoWalletFound) <==> SelectWallet !in failing && forall w | w in t.wallets :: w.id != id
    ensures r.Err? ==> r.error in {ErrNoWalletFound, DatabaseFailure}
  {
  }

  /** Since ids are unique, GetWallet on the id of a stored wallet can
      only give that wallet. */
  lemma StoredWalletIsTheAnswer(t: Tables, failing: set<Statement>, w: Wallet)
    requires Consistent(t) && SelectWallet !in failing && w in t.wallets
    ensures WalletAnswers(t, failing, w.id) == {Ok(w)}
  {
    forall v | v in t.wallets && v.id == w.id ensures v == w {
      var i :| 0 <= i < |t.wallets| && t.wallets[i] == v;
      var j :| 0 <= j < |t.wallets| && t.wallets[j] == w;
      assert i == j;
    }
  }

  /** GetWalletToken gives a token stored for that wallet, or an error that
      is never ErrNoWalletFound. */
  lemma TokenAnswersCases(t: Tables, failing: set<Statement>, walletID: Uint64, r: Result<string>)
    requires r in TokenAnswers(t, failing, walletID)
    ensures r.Ok? ==> TokenRow(walletID, r.value) in t.tokens
    ensures r.Err? ==> r.error in {NoRows, DatabaseFailure} && !Is(r.error, ErrNoWalletFound)
  {
  }
}
