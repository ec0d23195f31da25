/** The ActiveRecord models.

    app/models/stock.rb: a default scope that hides soft-deleted rows, a
    required bearer, a present and unique name, and destroy/destroy! that
    soft-delete through update/update!.
    app/models/bearer.rb: a present and unique name, and `has_many :stocks`. */
module Models {
  import opened Rails
  import opened Schema
  import opened Storage

  const BearerMustExist := "Bearer must exist"
  const NameCantBeBlank := "Name can't be blank"
  const NameTaken := "Name has already been taken"

  /** An in-memory Stock object: its id once persisted, its current
      attributes, the attributes as last read from or written to the row
      (dirty tracking compares the two), and its validation messages. */
  datatype Record = Record(id: Option<Id>, attrs: Columns, loaded: Columns, errors: seq<string>)

  /** The attributes of a fresh Stock.new: all nil. */
  const Unset := Columns(None, None, None)

  /** Stock.new(params) */
  function Built(c: Columns): (rec: Record)
  {
    Record(None, c, Unset, [])
  }

  /** A Stock object instantiated from row `id`. */
  function Instantiated(id: Id, row: StockRow): (rec: Record)
  {
    Record(Some(id), RowColumns(row), RowColumns(row), [])
  }

  /** changed? */
  predicate Changed(r: Record)
  {
    r.attrs != r.loaded
  }

  /** The record mirrors a row of `db` that has not changed since it was read,
      or is a new record. */
  predicate InSync(db: Db, r: Record)
  {
    r.id.Some? ==> r.id.value in db.stocks && r.loaded == RowColumns(db.stocks[r.id.value])
  }

  // ---------------------------------------------------------------------
  // Scopes and associations
  // ---------------------------------------------------------------------

  /** `default_scope -> { where(deleted_at: nil) }`: the ids every default read of Stock sees. */
  function Scoped(db: Db): (ids: set<Id>)
  {
    set id | id in db.stocks && Active(db.stocks[id])
  }

  /** `bearer.stocks`: the default-scoped stocks whose bearer_id is `bearerId`. */
  function BearerStocks(db: Db, bearerId: Id): (ids: set<Id>)
  {
    set id | id in Scoped(db) && db.stocks[id].bearerId == bearerId
  }

  /** `stock.bearer`: the bearer row bearer_id points at, or nil. */
  function BearerOf(db: Db, c: Columns): (bearer: Option<Id>)
  {
    if c.bearerId.Some? && c.bearerId.value in db.bearers then c.bearerId else None
  }

  // ---------------------------------------------------------------------
  // Validations
  // ---------------------------------------------------------------------

  /** The uniqueness validator's query: another row, deleted or not, already has the name.
      The validator queries the unscoped table and skips the record's own row. */
  predicate NameUsedElsewhere(db: Db, id: Option<Id>, name: Option<string>)
  {
    name.Some? && exists other | other in db.stocks :: Some(other) != id && db.stocks[other].name == name.value
  }

  /** `stock.valid?` leaves these full messages: the required bearer, then the
      name's presence, then the name's uniqueness, in declaration order. */
  function StockErrors(db: Db, id: Option<Id>, c: Columns): (errs: seq<string>)
    ensures errs == [] <==> BearerOf(db, c).Some? && Present(c.name) && !NameUsedElsewhere(db, id, c.name)
    ensures BearerMustExist in errs <==> BearerOf(db, c).None?
    ensures NameCantBeBlank in errs <==> Blank(c.name)
    ensures NameTaken in errs <==> NameUsedElsewhere(db, id, c.name)
  {
    (if BearerOf(db, c).None? then [BearerMustExist] else [])
    + (if Blank(c.name) then [NameCantBeBlank] else [])
    + (if NameUsedElsewhere(db, id, c.name) then [NameTaken] else [])
  }

  /** `bearer.valid?` for a new bearer: a present name that no bearer has yet. */
  function BearerErrors(db: Db, name: Option<string>): (errs: seq<string>)
    ensures errs == [] <==> Present(name) && !BearerNameTaken(db.bearers, name.value)
  {
    (if Blank(name) then [NameCantBeBlank] else [])
    + (if name.Some? && BearerNameTaken(db.bearers, name.value) then [NameTaken] else [])
  }

  /** `Bearer.find_or_create_by!(name: name)`: the bearer with that name if
      there is one, otherwise create! of a new one. */
  ghost function FoundOrCreatedBearer(db: Db, name: string): (res: Result<(Db, Id)>)
  {
    if BearerNameTaken(db.bearers, name) then
      var id :| id in db.bearers && db.bearers[id] == name; Ok((db, id))
    else if BearerErrors(db, Some(name)) != [] then Err(RecordInvalid)
    else TryInsertBearer(db, Some(name))
  }

  // ---------------------------------------------------------------------
  // Persistence of a Stock object
  // ---------------------------------------------------------------------

  /** The state after a call on a Stock object: the database, the object, and what the call did. */
  datatype Step = Step(db: Db, rec: Record, out: Outcome)

  /** `valid?` */
  function Validated(db: Db, r: Record): (rec: Record)
  {
    r.(errors := StockErrors(db, r.id, r.attrs))
  }

  /** The write half of save and save!: INSERT a new record, skip an
      unchanged one, UPDATE a changed one. A refused statement raises and
      its own transaction leaves the database as it was. */
  function Written(db: Db, r: Record): (step: Step)
  {
    if r.id.None? then
      match TryInsertStock(db, r.attrs)
      case Ok((d, id)) => Step(d, r.(id := Some(id), loaded := r.attrs), Returned(true))
      case Err(e) => Step(db, r, Raised(e))
    else if !Changed(r) then Step(db, r, Returned(true))
    else
      match TryUpdateStock(db, r.id.value, r.attrs)
      case Ok(d) => Step(d, r.(loaded := r.attrs), Returned(true))
      case Err(e) => Step(db, r, Raised(e))
  }

  /** `save`: false on an invalid record. */
  function Saved(db: Db, r: Record): (step: Step)
  {
    var v := Validated(db, r);
    if v.errors != [] then Step(db, v, Returned(false)) else Written(db, v)
  }

  /** `save!`: RecordInvalid on an invalid record. */
  function SavedBang(db: Db, r: Record): (step: Step)
  {
    var v := Validated(db, r);
    if v.errors != [] then Step(db, v, Raised(RecordInvalid)) else Written(db, v)
  }

  /** `update(deleted_at: now)`, which is what `destroy` does. */
  function Destroyed(db: Db, r: Record, now: Time): (step: Step)
  {
    Saved(db, r.(attrs := r.attrs.(deletedAt := Some(now))))
  }

  /** `update!(deleted_at: now)`, which is what `destroy!` does. */
  function DestroyedBang(db: Db, r: Record, now: Time): (step: Step)
  {
    SavedBang(db, r.(attrs := r.attrs.(deletedAt := Some(now))))
  }

  /** `reload`: re-read the row through the unscoped table. */
  function Reloaded(db: Db, r: Record): (res: Result<Record>)
    ensures res.Ok? <==> r.id.Some? && r.id.value in db.stocks
    ensures res.Err? ==> res.error == RecordNotFound
    ensures res.Ok? ==> res.value.id == r.id && res.value.errors == r.errors
    ensures res.Ok? ==> InSync(db, res.value) && !Changed(res.value)
  {
    if r.id.Some? && r.id.value in db.stocks then
      var c := RowColumns(db.stocks[r.id.value]); Ok(r.(attrs := c, loaded := c))
    else Err(RecordNotFound)
  }

  // ---------------------------------------------------------------------
  // What the models guarantee
  // ---------------------------------------------------------------------

  /** Validation is stricter than the schema: a record that passes `valid?`
      is always accepted by the database, so with one writer the
      RecordNotUnique rescue is never reached. */
  lemma ValidRecordIsStored(db: Db, r: Record)
    requires Consistent(db) && InSync(db, r)
    requires StockErrors(db, r.id, r.attrs) == []
    ensures Written(db, r).out == Returned(true)
    ensures Consistent(Written(db, r).db) && InSync(Written(db, r).db, Written(db, r).rec)
  {
    var c := r.attrs;
    if r.id.None? {
      assert !ActiveNameTaken(db.stocks, db.nextStockId, c.name.value);
      InsertStockKeepsConsistent(db, c);
    } else if Changed(r) {
      assert !ActiveNameTaken(db.stocks, r.id.value, c.name.value);
      UpdateStockKeepsConsistent(db, r.id.value, c);
    }
  }

  /** The validator sees soft-deleted rows but the partial index does not: a
      name held only by a deleted stock is refused by `valid?` although the
      database would accept the row. */
  lemma DeletedNameIsStillTaken(db: Db, deleted: Id, bearerId: Id)
    requires Consistent(db) && bearerId in db.bearers
    requires deleted in db.stocks && !Active(db.stocks[deleted])
    requires !ActiveNameTaken(db.stocks, db.nextStockId, db.stocks[deleted].name)
    ensures var c := Columns(Some(bearerId), Some(db.stocks[deleted].name), None);
      && NameTaken in StockErrors(db, None, c)
      && TryInsertStock(db, c).Ok?
  {
    var c := Columns(Some(bearerId), Some(db.stocks[deleted].name), None);
    assert NameUsedElsewhere(db, None, c.name) by {
      assert Some(deleted) != None && db.stocks[deleted].name == c.name.value;
    }
  }

  /** `find_or_create_by!` with a present name, on a consistent database,
      never raises: it returns the bearer with that name, reusing an
      existing one untouched or inserting exactly one new row. */
  lemma FindOrCreateBearerFindsOrAddsOne(db: Db, name: string)
    requires Consistent(db) && Present(Some(name))
    ensures FoundOrCreatedBearer(db, name).Ok?
    ensures var (d, id) := FoundOrCreatedBearer(db, name).value;
      && Consistent(d) && d.stocks == db.stocks
      && id in d.bearers && d.bearers[id] == name
      && (BearerNameTaken(db.bearers, name) ==> d == db)
      && (!BearerNameTaken(db.bearers, name) ==>
            id !in db.bearers && d.bearers == db.bearers[id := name] && |d.bearers| == |db.bearers| + 1)
  {
    if !BearerNameTaken(db.bearers, name) {
      InsertBearerKeepsConsistent(db, Some(name));
    }
  }

  /** Bearer names are unique, so find_by(name:) has one answer. */
  lemma BearerIdByNameUnique(db: Db, name: string, a: Id, b: Id)
    requires BearerNamesUnique(db.bearers)
    requires a in db.bearers && db.bearers[a] == name
    requires b in db.bearers && db.bearers[b] == name
    ensures a == b
  {
  }

  /** A second `save` after a successful one validates the same way and writes nothing. */
  lemma SaveAgainChangesNothing(db: Db, r: Record)
    requires Consistent(db) && InSync(db, r)
    requires Saved(db, r).out == Returned(true)
    ensures var s := Saved(db, r);
      Saved(s.db, s.rec) == Step(s.db, s.rec, Returned(true))
  {
    var v := Validated(db, r);
    ValidRecordIsStored(db, v);
    var s := Written(db, v);
    assert s.rec.id.Some? && !Changed(s.rec);
    SameErrorsAfterOwnWrite(db, v, s.db);
  }

  /** Writing a record's own row does not change how that record validates. */
  lemma SameErrorsAfterOwnWrite(db: Db, v: Record, d: Db)
    requires Consistent(db) && InSync(db, v) && v.errors == StockErrors(db, v.id, v.attrs) && v.errors == []
    requires d == Written(db, v).db
    ensures var w := Written(db, v).rec; StockErrors(d, w.id, w.attrs) == []
  {
    ValidRecordIsStored(db, v);
    var w := Written(db, v).rec;
    assert d.bearers == db.bearers;
  }

  /** `destroy` of an active stock read from the database soft-deletes it when
      it is valid: the row stays, deleted_at becomes `now`, the active count
      drops by one and no default-scoped read finds it. When it is invalid it
      returns false, keeps the messages and writes nothing. It never raises. */
  lemma DestroySoftDeletes(db: Db, id: Id, now: Time)
    requires Consistent(db) && id in db.stocks && Active(db.stocks[id])
    ensures var r := Instantiated(id, db.stocks[id]);
      var s := Destroyed(db, r, now);
      var c := r.attrs.(deletedAt := Some(now));
      && s.out.Returned?
      && (s.out.value <==> StockErrors(db, Some(id), c) == [])
      && s.rec.errors == StockErrors(db, Some(id), c)
      && (s.out.value ==>
            && Consistent(s.db) && s.db.bearers == db.bearers
            && s.db.stocks == db.stocks[id := db.stocks[id].(deletedAt := Some(now))]
            && s.db.stocks.Keys == db.stocks.Keys
            && id !in Scoped(s.db)
            && |Scoped(s.db)| == |Scoped(db)| - 1)
      && (!s.out.value ==> s.db == db)
  {
    var r := Instantiated(id, db.stocks[id]);
    var c := r.attrs.(deletedAt := Some(now));
    var v := Validated(db, r.(attrs := c));
    if v.errors == [] {
      ValidRecordIsStored(db, v);
      var d := Written(db, v).db;
      assert Changed(v);
      assert d.stocks == db.stocks[id := db.stocks[id].(deletedAt := Some(now))];
      assert Scoped(d) == Scoped(db) - {id};
    }
  }

  /** `destroy!` raises RecordInvalid exactly where `destroy` returns false,
      and otherwise does the same. */
  lemma DestroyBangRaisesWhenInvalid(db: Db, r: Record, now: Time)
    ensures var s := Destroyed(db, r, now);
      var b := DestroyedBang(db, r, now);
      && (s.out == Returned(false) <==> b.out == Raised(RecordInvalid) && b.rec.errors != [])
      && (s.out != Returned(false) ==> b == s)
      && b.db == s.db && b.rec == s.rec
  {
  }

  /** A stock created for a bearer is one more of `bearer.stocks`. */
  lemma CreatedStockJoinsBearer(db: Db, c: Columns)
    requires Consistent(db) && TryInsertStock(db, c).Ok? && c.deletedAt.None?
    ensures var d := TryInsertStock(db, c).value.0;
      BearerStocks(d, c.bearerId.value) == BearerStocks(db, c.bearerId.value) + {TryInsertStock(db, c).value.1}
      && |BearerStocks(d, c.bearerId.value)| == |BearerStocks(db, c.bearerId.value)| + 1
  {
    var (d, id) := TryInsertStock(db, c).value;
    InsertStockKeepsConsistent(db, c);
    assert BearerStocks(d, c.bearerId.value) == BearerStocks(db, c.bearerId.value) + {id};
  }

  /** `Bearer.find_or_create_by!(name: name)`: find_by(name:), else create!(name:). */
  method FindOrCreateBearer(db: Database, name: string) returns (r: Result<Id>)
    requires db.Valid()
    modifies db
    ensures db.Valid()
    ensures r.Ok? <==> FoundOrCreatedBearer(old(db.State()), name).Ok?
    ensures r.Ok? ==> FoundOrCreatedBearer(old(db.State()), name).value == (db.State(), r.value)
    ensures r.Err? ==> FoundOrCreatedBearer(old(db.State()), name).error == r.error && db.State() == old(db.State())
  {
    if exists id | id in db.bearers :: db.bearers[id] == name {
      var id :| id in db.bearers && db.bearers[id] == name;
      ghost var chosen := FoundOrCreatedBearer(db.State(), name).value.1;
      BearerIdByNameUnique(db.State(), name, id, chosen);
      return Ok(id);
    }
    if forall i | 0 <= i < |name| :: IsSpace(name[i]) {
      return Err(RecordInvalid);
    }
    r := db.InsertBearer(Some(name));
  }

  // ---------------------------------------------------------------------
  // The Stock object
  // ---------------------------------------------------------------------

  /** An instance of Stock. Forms and the controller share one instance and
      change it in place. */
  class Stock {
    var id: Option<Id>
    var attrs: Columns
    var loaded: Columns
    var errors: seq<string>

    function Value(): Record
      reads this
    {
      Record(id, attrs, loaded, errors)
    }

    /** Stock.new(params) */
    constructor Build(c: Columns)
      ensures Value() == Built(c)
    {
      id, attrs, loaded, errors := None, c, Unset, [];
    }

    /** An instance read from row `rowId`. */
    constructor Instantiate(rowId: Id, row: StockRow)
      ensures Value() == Instantiated(rowId, row)
    {
      id, attrs, loaded, errors := Some(rowId), RowColumns(row), RowColumns(row), [];
    }

    /** `valid?`: run the validators in declaration order, collecting full messages. */
    method Validate(db: Database) returns (ok: bool)
      modifies this
      ensures Value() == Validated(db.State(), old(Value()))
      ensures ok <==> errors == []
    {
      // belongs_to :bearer (required), then validates :name, presence, uniqueness
      var noBearer := BearerOf(db.State(), attrs).None?;
      var blank := Blank(attrs.name);
      var taken := NameUsedElsewhere(db.State(), id, attrs.name);
      errors := [];
      if noBearer {
        errors := errors + [BearerMustExist];
      }
      if blank {
        errors := errors + [NameCantBeBlank];
      }
      if taken {
        errors := errors + [NameTaken];
      }
      ok := errors == [];
    }

    /** The write half of save and save!. */
    method Write(db: Database) returns (out: Outcome)
      requires db.Valid()
      modifies this, db
      ensures db.Valid()
      ensures Step(db.State(), Value(), out) == Written(old(db.State()), old(Value()))
    {
      if id.None? {
        var r := db.InsertStock(attrs);
        if r.Ok? {
          id, loaded := Some(r.value), attrs;
          out := Returned(true);
        } else {
          out := Raised(r.error);
        }
      } else if attrs == loaded {
        out := Returned(true);
      } else {
        var r := db.UpdateStock(id.value, attrs);
        if r.Ok? {
          loaded := attrs;
          out := Returned(true);
        } else {
          out := Raised(r.error);
        }
      }
    }

    /** `save` */
    method Save(db: Database) returns (out: Outcome)
      requires db.Valid()
      modifies this, db
      ensures db.Valid()
      ensures Step(db.State(), Value(), out) == Saved(old(db.State()), old(Value()))
    {
      var ok := Validate(db);
      if !ok {
        return Returned(false);
      }
      out := Write(db);
    }

    /** `save!` */
    method SaveBang(db: Database) returns (out: Outcome)
      requires db.Valid()
      modifies this, db
      ensures db.Valid()
      ensures Step(db.State(), Value(), out) == SavedBang(old(db.State()), old(Value()))
    {
      var ok := Validate(db);
      if !ok {
        return Raised(RecordInvalid);
      }
      out := Write(db);
    }

    /** `destroy`, i.e. `update(deleted_at: Time.current)` */
    method Destroy(db: Database, now: Time) returns (out: Outcome)
      requires db.Valid()
      modifies this, db
      ensures db.Valid()
      ensures Step(db.State(), Value(), out) == Destroyed(old(db.State()), old(Value()), now)
    {
      attrs := attrs.(deletedAt := Some(now));
      out := Save(db);
    }

    /** `destroy!`, i.e. `update!(deleted_at: Time.current)` */
    method DestroyBang(db: Database, now: Time) returns (out: Outcome)
      requires db.Valid()
      modifies this, db
      ensures db.Valid()
      ensures Step(db.State(), Value(), out) == DestroyedBang(old(db.State()), old(Value()), now)
    {
      attrs := attrs.(deletedAt := Some(now));
      out := SaveBang(db);
    }

    /** `assign_attributes(bearer: bearer, name: name)`: bearer_id becomes the
        bearer's id, or nil for a nil bearer. */
    method AssignAttributes(bearerId: Option<Id>, name: Option<string>)
      modifies this
      ensures Value() == old(Value()).(attrs := old(attrs).(bearerId := bearerId, name := name))
    {
      attrs := attrs.(bearerId := bearerId, name := name);
    }

    /** `reload`: RecordNotFound when the row is gone, otherwise the row's attributes. */
    method Reload(db: Database) returns (r: Result<()>)
      modifies this
      ensures r.Ok? <==> Reloaded(db.State(), old(Value())).Ok?
      ensures r.Ok? ==> Value() == Reloaded(db.State(), old(Value())).value
      ensures r.Err? ==> r.error == RecordNotFound && Value() == old(Value())
    {
      if id.None? || id.value !in db.stocks {
        return Err(RecordNotFound);
      }
      var c := RowColumns(db.stocks[id.value]);
      attrs, loaded := c, c;
      r := Ok(());
    }
  }
}
