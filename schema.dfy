/** The two tables the migrations create, the constraints PostgreSQL enforces
    on them, and the statements the application issues against them.

    db/migrate/20220507144545_create_bearers.rb: bearers(id, name NOT NULL, unique index on name).
    db/migrate/20220507144625_create_stocks.rb: stocks(id, bearer_id NOT NULL REFERENCES bearers,
    name NOT NULL, deleted_at NULL), a unique index on name WHERE deleted_at IS NULL. */
module Schema {
  import opened Rails

  /** A row of `stocks` as stored: bearer_id and name are NOT NULL columns,
      deleted_at is nullable and NULL means the stock is active. */
  datatype StockRow = StockRow(bearerId: Id, name: string, deletedAt: Option<Time>)

  /** The columns of `stocks` as the application writes them, each possibly NULL. */
  datatype Columns = Columns(bearerId: Option<Id>, name: Option<string>, deletedAt: Option<Time>)

  /** The database: both tables and the next value of each id sequence. */
  datatype Db = Db(bearers: map<Id, string>, stocks: map<Id, StockRow>, nextBearerId: Id, nextStockId: Id)

  const Empty: Db := Db(map[], map[], 1, 1)

  predicate Active(row: StockRow)
  {
    row.deletedAt.None?
  }

  /** The columns of a stored row, as an ActiveRecord object reads them. */
  function RowColumns(row: StockRow): (cols: Columns)
  {
    Columns(Some(row.bearerId), Some(row.name), row.deletedAt)
  }

  // ---------------------------------------------------------------------
  // Constraints
  // ---------------------------------------------------------------------

  /** The unique index on bearers.name, with no deletion filter. */
  predicate BearerNamesUnique(bearers: map<Id, string>)
  {
    forall a, b | a in bearers && b in bearers && a != b :: bearers[a] != bearers[b]
  }

  /** The foreign key stocks.bearer_id -> bearers.id. */
  predicate StockBearersExist(bearers: map<Id, string>, stocks: map<Id, StockRow>)
  {
    forall id | id in stocks :: stocks[id].bearerId in bearers
  }

  /** The partial unique index on stocks.name WHERE deleted_at IS NULL. */
  predicate ActiveNamesUnique(stocks: map<Id, StockRow>)
  {
    forall a, b | a in stocks && b in stocks && a != b && Active(stocks[a]) && Active(stocks[b]) ::
      stocks[a].name != stocks[b].name
  }

  /** Every id in use was handed out by its sequence. */
  predicate IdsIssued(db: Db)
  {
    && (forall id | id in db.bearers :: id < db.nextBearerId)
    && (forall id | id in db.stocks :: id < db.nextStockId)
  }

  /** The constraints the `stocks` table carries. */
  predicate StocksConstraints(bearers: map<Id, string>, stocks: map<Id, StockRow>)
  {
    StockBearersExist(bearers, stocks) && ActiveNamesUnique(stocks)
  }

  /** Everything the schema guarantees of a committed database. */
  predicate Consistent(db: Db)
  {
    BearerNamesUnique(db.bearers) && StocksConstraints(db.bearers, db.stocks) && IdsIssued(db)
  }

  // ---------------------------------------------------------------------
  // Statements
  // ---------------------------------------------------------------------

  predicate BearerNameTaken(bearers: map<Id, string>, name: string)
  {
    exists id | id in bearers :: bearers[id] == name
  }

  /** Every bearer of `before` is still in `after`, under the same name:
      nothing in the application deletes or renames a bearer. */
  predicate BearersKept(before: map<Id, string>, after: map<Id, string>)
  {
    forall k | k in before :: k in after && after[k] == before[k]
  }

  /** Another active row, other than `id`, already carries `name`. */
  predicate ActiveNameTaken(stocks: map<Id, StockRow>, id: Id, name: string)
  {
    exists other | other in stocks && other != id :: Active(stocks[other]) && stocks[other].name == name
  }

  /** INSERT INTO bearers (name): the NOT NULL column, then the unique index. */
  function TryInsertBearer(db: Db, name: Option<string>): (r: Result<(Db, Id)>)
  {
    if name.None? then Err(NotNullViolation)
    else if BearerNameTaken(db.bearers, name.value) then Err(RecordNotUnique)
    else Ok((db.(bearers := db.bearers[db.nextBearerId := name.value], nextBearerId := db.nextBearerId + 1),
             db.nextBearerId))
  }

  /** Storing columns `c` as row `id` of `stocks`: the NOT NULL columns, the
      partial unique index, then the foreign key (checked at the end of the
      statement). A refused statement leaves both tables as they were; the
      model does not advance the id sequence for it either. */
  function TryWriteStock(db: Db, id: Id, c: Columns): (r: Result<Db>)
  {
    if c.bearerId.None? || c.name.None? then Err(NotNullViolation)
    else if c.deletedAt.None? && ActiveNameTaken(db.stocks, id, c.name.value) then Err(RecordNotUnique)
    else if c.bearerId.value !in db.bearers then Err(InvalidForeignKey)
    else Ok(db.(stocks := db.stocks[id := StockRow(c.bearerId.value, c.name.value, c.deletedAt)]))
  }

  /** INSERT INTO stocks, with the next id of the sequence. */
  function TryInsertStock(db: Db, c: Columns): (r: Result<(Db, Id)>)
  {
    match TryWriteStock(db, db.nextStockId, c)
    case Ok(d) => Ok((d.(nextStockId := db.nextStockId + 1), db.nextStockId))
    case Err(e) => Err(e)
  }

  /** UPDATE stocks SET ... WHERE id = `id`: matching no row, it changes nothing and succeeds. */
  function TryUpdateStock(db: Db, id: Id, c: Columns): (r: Result<Db>)
  {
    if id !in db.stocks then Ok(db) else TryWriteStock(db, id, c)
  }

  // ---------------------------------------------------------------------
  // What the constraints guarantee
  // ---------------------------------------------------------------------

  /** The bearers' unique index refuses an insert exactly when the new table
      would hold two bearers with one name. */
  lemma InsertBearerAcceptsExactly(db: Db, name: string)
    requires Consistent(db)
    ensures TryInsertBearer(db, Some(name)).Ok? <==> BearerNamesUnique(db.bearers[db.nextBearerId := name])
  {
    var after := db.bearers[db.nextBearerId := name];
    assert db.nextBearerId !in db.bearers;
    if BearerNameTaken(db.bearers, name) {
      var id :| id in db.bearers && db.bearers[id] == name;
      assert after[id] == after[db.nextBearerId] && id != db.nextBearerId;
    } else {
      forall a, b | a in after && b in after && a != b ensures after[a] != after[b] {
        if a != db.nextBearerId && b != db.nextBearerId {
          assert after[a] == db.bearers[a] && after[b] == db.bearers[b];
        }
      }
    }
  }

  /** The stocks' constraints refuse a write exactly when the new table would
      break the foreign key or hold two active stocks with one name. */
  lemma WriteStockAcceptsExactly(db: Db, id: Id, c: Columns)
    requires Consistent(db)
    ensures TryWriteStock(db, id, c).Ok? <==>
      && c.bearerId.Some? && c.name.Some?
      && StocksConstraints(db.bearers, db.stocks[id := StockRow(c.bearerId.value, c.name.value, c.deletedAt)])
  {
    if c.bearerId.Some? && c.name.Some? {
      var row := StockRow(c.bearerId.value, c.name.value, c.deletedAt);
      var after := db.stocks[id := row];
      if Active(row) && ActiveNameTaken(db.stocks, id, row.name) {
        var other :| other in db.stocks && other != id && Active(db.stocks[other]) && db.stocks[other].name == row.name;
        assert after[other] == db.stocks[other];
        assert id in after && other in after && Active(after[id]) && Active(after[other]) && after[id].name == after[other].name;
        assert !ActiveNamesUnique(after);
      } else if row.bearerId !in db.bearers {
        assert after[id] == row;
        assert !StockBearersExist(db.bearers, after);
      } else {
        forall a, b | a in after && b in after && a != b && Active(after[a]) && Active(after[b])
          ensures after[a].name != after[b].name
        {
          if a != id && b != id {
            assert after[a] == db.stocks[a] && after[b] == db.stocks[b];
          } else if a == id {
            assert !(b != id && Active(db.stocks[b]) && db.stocks[b].name == row.name);
          } else {
            assert !(a != id && Active(db.stocks[a]) && db.stocks[a].name == row.name);
          }
        }
      }
    }
  }

  /** An accepted insert of a bearer keeps every constraint, keeps every
      existing bearer and adds exactly one. */
  lemma InsertBearerKeepsConsistent(db: Db, name: Option<string>)
    requires Consistent(db) && TryInsertBearer(db, name).Ok?
    ensures var (d, id) := TryInsertBearer(db, name).value;
      && Consistent(d) && d.stocks == db.stocks
      && id !in db.bearers && d.bearers == db.bearers[id := name.value]
      && |d.bearers| == |db.bearers| + 1
  {
    var (d, id) := TryInsertBearer(db, name).value;
    InsertBearerAcceptsExactly(db, name.value);
    assert id !in db.bearers;
    forall k | k in d.stocks ensures d.stocks[k].bearerId in d.bearers {
      assert db.stocks[k].bearerId in db.bearers;
    }
  }

  /** An accepted write of an existing row keeps every constraint. */
  lemma UpdateStockKeepsConsistent(db: Db, id: Id, c: Columns)
    requires Consistent(db) && TryUpdateStock(db, id, c).Ok?
    ensures var d := TryUpdateStock(db, id, c).value;
      Consistent(d) && d.bearers == db.bearers && d.stocks.Keys == db.stocks.Keys
  {
    if id in db.stocks {
      WriteStockAcceptsExactly(db, id, c);
    }
  }

  /** An accepted insert of a stock keeps every constraint and adds exactly one row. */
  lemma InsertStockKeepsConsistent(db: Db, c: Columns)
    requires Consistent(db) && TryInsertStock(db, c).Ok?
    ensures var (d, id) := TryInsertStock(db, c).value;
      && Consistent(d) && d.bearers == db.bearers
      && id !in db.stocks && d.stocks == db.stocks[id := StockRow(c.bearerId.value, c.name.value, c.deletedAt)]
      && |d.stocks| == |db.stocks| + 1
  {
    WriteStockAcceptsExactly(db, db.nextStockId, c);
    assert db.nextStockId !in db.stocks;
  }

  /** The partial index leaves deleted rows unconstrained: a deleted row and an
      active row, or two deleted rows, may share a name. */
  lemma DeletedRowsMayShareNames(db: Db, id: Id, name: string, bearerId: Id, t: Time)
    requires Consistent(db) && bearerId in db.bearers
    requires id in db.stocks && db.stocks[id].name == name
    ensures TryInsertStock(db, Columns(Some(bearerId), Some(name), Some(t))).Ok?
    ensures !Active(db.stocks[id]) && !ActiveNameTaken(db.stocks, db.nextStockId, name) ==>
      TryInsertStock(db, Columns(Some(bearerId), Some(name), None)).Ok?
  {
  }
}

/** The database as the application sees it: one object whose tables every
    statement reads and writes. Its invariant is the schema's constraints. */
module Storage {
  import opened Rails
  import opened Schema

  class Database {
    var bearers: map<Id, string>
    var stocks: map<Id, StockRow>
    var nextBearerId: Id
    var nextStockId: Id

    function State(): Db
      reads this
    {
      Db(bearers, stocks, nextBearerId, nextStockId)
    }

    ghost predicate Valid()
      reads this
    {
      Consistent(State())
    }

    constructor ()
      ensures Valid() && State() == Empty
    {
      bearers, stocks, nextBearerId, nextStockId := map[], map[], 1, 1;
    }

    /** INSERT INTO bearers. */
    method InsertBearer(name: Option<string>) returns (r: Result<Id>)
      requires Valid()
      modifies this
      ensures Valid()
      ensures r.Ok? <==> TryInsertBearer(old(State()), name).Ok?
      ensures r.Ok? ==> TryInsertBearer(old(State()), name).value == (State(), r.value)
      ensures r.Err? ==> TryInsertBearer(old(State()), name).error == r.error && State() == old(State())
    {
      if name.None? {
        return Err(NotNullViolation);
      }
      if exists id | id in bearers :: bearers[id] == name.value {
        return Err(RecordNotUnique);
      }
      InsertBearerKeepsConsistent(State(), name);
      r := Ok(nextBearerId);
      bearers := bearers[nextBearerId := name.value];
      nextBearerId := nextBearerId + 1;
    }

    /** INSERT INTO stocks. */
    method InsertStock(c: Columns) returns (r: Result<Id>)
      requires Valid()
      modifies this
      ensures Valid()
      ensures r.Ok? <==> TryInsertStock(old(State()), c).Ok?
      ensures r.Ok? ==> TryInsertStock(old(State()), c).value == (State(), r.value)
      ensures r.Err? ==> TryInsertStock(old(State()), c).error == r.error && State() == old(State())
    {
      var e := Refusal(nextStockId, c);
      if e.Some? {
        return Err(e.value);
      }
      InsertStockKeepsConsistent(State(), c);
      r := Ok(nextStockId);
      stocks := stocks[nextStockId := StockRow(c.bearerId.value, c.name.value, c.deletedAt)];
      nextStockId := nextStockId + 1;
    }

    /** UPDATE stocks ... WHERE id = `id`. */
    method UpdateStock(id: Id, c: Columns) returns (r: Result<()>)
      requires Valid()
      modifies this
      ensures Valid()
      ensures r.Ok? <==> TryUpdateStock(old(State()), id, c).Ok?
      ensures r.Ok? ==> TryUpdateStock(old(State()), id, c).value == State()
      ensures r.Err? ==> TryUpdateStock(old(State()), id, c).error == r.error && State() == old(State())
    {
      if id !in stocks {
        return Ok(());
      }
      var e := Refusal(id, c);
      if e.Some? {
        return Err(e.value);
      }
      UpdateStockKeepsConsistent(State(), id, c);
      r := Ok(());
      stocks := stocks[id := StockRow(c.bearerId.value, c.name.value, c.deletedAt)];
    }

    /** The constraint, if any, that refuses storing `c` as row `id`. */
    method Refusal(id: Id, c: Columns) returns (e: Option<Exception>)
      ensures e.None? <==> TryWriteStock(State(), id, c).Ok?
      ensures e.Some? ==> TryWriteStock(State(), id, c).error == e.value
    {
      if c.bearerId.None? || c.name.None? {
        e := Some(NotNullViolation);
      } else if c.deletedAt.None? && exists other | other in stocks && other != id ::
                  Active(stocks[other]) && stocks[other].name == c.name.value {
        e := Some(RecordNotUnique);
      } else if c.bearerId.value !in bearers {
        e := Some(InvalidForeignKey);
      } else {
        e := None;
      }
    }

    /** ROLLBACK to the state at the start of a transaction. */
    method Rollback(saved: Db)
      requires Consistent(saved)
      modifies this
      ensures Valid() && State() == saved
    {
      bearers, stocks, nextBearerId, nextStockId := saved.bearers, saved.stocks, saved.nextBearerId, saved.nextStockId;
    }
  }
}
