/** The form objects the controller drives.

    app/forms/stocks/create_form.rb: build a Stock from the permitted params,
    validate it, insert it, and turn a refusal of the unique index into one
    message.
    app/forms/stocks/update_form.rb: inside one transaction, find or create the
    requested bearer, assign it and the name, validate, write only when
    something changed; a refusal of the unique index is rescued inside the
    transaction block, so the block returns false and the transaction commits. */
module Forms {
  import opened Rails
  import opened Schema
  import opened Storage
  import opened Models

  /** `@errors`: nil until a save fails, then the full messages of a failed
      validation, or the single string of the RecordNotUnique rescue. */
  datatype FormErrors = Nil | Messages(list: seq<string>) | Message(text: string)

  /** `create_params`: the permitted name, with bearer_id taken from the route. */
  datatype CreateParams = CreateParams(name: Option<string>, bearerId: Id)

  /** `update_params`: the permitted name and bearer_name. */
  datatype UpdateParams = UpdateParams(name: Option<string>, bearerName: Option<string>)

  // ---------------------------------------------------------------------
  // CreateForm
  // ---------------------------------------------------------------------

  datatype CreateState = CreateState(stock: Record, errors: FormErrors)

  datatype CreateStep = CreateStep(db: Db, form: CreateState, out: Outcome)

  /** The columns `Stock.new(params)` starts from: deleted_at is nil. */
  function CreateColumns(p: CreateParams): (cols: Columns)
  {
    Columns(Some(p.bearerId), p.name, None)
  }

  /** `CreateForm.new(params)` */
  function CreateOpened(p: CreateParams): (form: CreateState)
  {
    CreateState(Built(CreateColumns(p)), Nil)
  }

  /** `CreateForm#save` */
  function CreateSaved(db: Db, f: CreateState): (step: CreateStep)
  {
    var v := Validated(db, f.stock);
    if v.errors == [] then
      var s := Saved(db, v);
      if s.out == Raised(RecordNotUnique) then
        CreateStep(s.db, f.(stock := s.rec, errors := Message(NameTaken)), Returned(false))
      else
        CreateStep(s.db, f.(stock := s.rec), s.out)
    else
      CreateStep(db, f.(stock := v, errors := Messages(v.errors)), Returned(false))
  }

  class CreateForm {
    var stock: Stock
    var errors: FormErrors

    function Value(): CreateState
      reads this, stock
    {
      CreateState(stock.Value(), errors)
    }

    constructor (p: CreateParams)
      ensures fresh(stock) && Value() == CreateOpened(p)
    {
      stock := new Stock.Build(CreateColumns(p));
      errors := Nil;
    }

    /** `save`: true when the stock was inserted. */
    method Save(db: Database) returns (out: Outcome)
      requires db.Valid()
      modifies this, stock, db
      ensures db.Valid() && stock == old(stock)
      ensures CreateStep(db.State(), Value(), out) == CreateSaved(old(db.State()), old(Value()))
    {
      var valid := stock.Validate(db);
      if valid {
        out := stock.Save(db);
        if out == Raised(RecordNotUnique) {
          errors := Message(NameTaken);
          out := Returned(false);
        }
      } else {
        errors := Messages(stock.errors);
        out := Returned(false);
      }
    }
  }

  // ---------------------------------------------------------------------
  // UpdateForm
  // ---------------------------------------------------------------------

  /** The form's instance variables; `bearer` is the memo of the private
      `bearer` method (nil until it yields a bearer). */
  datatype UpdateState = UpdateState(stock: Record, params: UpdateParams, bearer: Option<Id>, errors: FormErrors)

  datatype UpdateStep = UpdateStep(db: Db, form: UpdateState, out: Outcome)

  /** `UpdateForm.new(stock, params)` */
  function UpdateOpened(r: Record, p: UpdateParams): (form: UpdateState)
  {
    UpdateState(r, p, None, Nil)
  }

  /** The private `bearer`: the memo if set; otherwise find_or_create_by! of a
      present bearer_name; otherwise the stock's current bearer. */
  ghost function ResolvedBearer(db: Db, f: UpdateState): (resolved: (Db, Result<Option<Id>>))
  {
    if f.bearer.Some? then (db, Ok(f.bearer))
    else if Present(f.params.bearerName) then
      match FoundOrCreatedBearer(db, f.params.bearerName.value)
      case Ok((d, id)) => (d, Ok(Some(id)))
      case Err(e) => (db, Err(e))
    else (db, Ok(BearerOf(db, f.stock.attrs)))
  }

  /** An exception inside the transaction block: RecordNotUnique is rescued in
      the block, which returns false and commits what it wrote; anything else
      leaves the block, rolls the transaction back and propagates. */
  function Rescued(start: Db, current: Db, f: UpdateState, e: Exception): (step: UpdateStep)
  {
    if e == RecordNotUnique then UpdateStep(current, f.(errors := Message(NameTaken)), Returned(false))
    else UpdateStep(start, f, Raised(e))
  }

  /** `UpdateForm#save` */
  ghost function UpdateSaved(db: Db, f: UpdateState): (step: UpdateStep)
  {
    var (d, b) := ResolvedBearer(db, f);
    if b.Err? then Rescued(db, d, f, b.error)
    else
      var g := f.(bearer := b.value, stock := f.stock.(attrs := f.stock.attrs.(bearerId := b.value, name := f.params.name)));
      var v := Validated(d, g.stock);
      if v.errors != [] then UpdateStep(d, g.(stock := v, errors := Messages(v.errors)), Returned(false))
      else if !Changed(v) then UpdateStep(d, g.(stock := v), Returned(true))
      else
        var s := SavedBang(d, v);
        if s.out.Raised? then Rescued(db, s.db, g.(stock := s.rec), s.out.exception)
        else UpdateStep(s.db, g.(stock := s.rec), Returned(true))
  }

  class UpdateForm {
    var stock: Stock
    var params: UpdateParams
    var bearer: Option<Id>
    var errors: FormErrors

    function Value(): UpdateState
      reads this, stock
    {
      UpdateState(stock.Value(), params, bearer, errors)
    }

    constructor (s: Stock, p: UpdateParams)
      ensures stock == s && Value() == UpdateOpened(s.Value(), p)
    {
      stock, params, bearer, errors := s, p, None, Nil;
    }

    /** The private `bearer` method, memoized with `||=`. */
    method Bearer(db: Database) returns (b: Result<Option<Id>>)
      requires db.Valid()
      modifies this, db
      ensures db.Valid()
      ensures (db.State(), b) == ResolvedBearer(old(db.State()), old(Value()))
      ensures stock == old(stock) && params == old(params) && errors == old(errors)
      ensures bearer == if b.Ok? then b.value else old(bearer)
    {
      if bearer.Some? {
        return Ok(bearer);
      }
      if Present(params.bearerName) {
        var r := FindOrCreateBearer(db, params.bearerName.value);
        if r.Err? {
          return Err(r.error);
        }
        b := Ok(Some(r.value));
      } else {
        b := Ok(BearerOf(db.State(), stock.attrs));
      }
      bearer := b.value;
    }

    /** `save`: true when the staged stock is valid (and written if it changed). */
    method Save(db: Database) returns (out: Outcome)
      requires db.Valid()
      modifies this, stock, db
      ensures db.Valid() && stock == old(stock)
      ensures UpdateStep(db.State(), Value(), out) == UpdateSaved(old(db.State()), old(Value()))
    {
      var start := db.State();
      var b := Bearer(db);
      if b.Err? {
        out := Rescue(db, start, b.error);
        return;
      }
      stock.AssignAttributes(b.value, params.name);
      var valid := stock.Validate(db);
      if !valid {
        errors := Messages(stock.errors);
        return Returned(false);
      }
      if stock.attrs != stock.loaded {
        var written := stock.SaveBang(db);
        if written.Raised? {
          out := Rescue(db, start, written.exception);
          return;
        }
      }
      out := Returned(true);
    }

    /** The `rescue ActiveRecord::RecordNotUnique` inside the transaction
        block, or the rollback of the transaction for any other exception. */
    method Rescue(db: Database, start: Db, e: Exception) returns (out: Outcome)
      requires db.Valid() && Consistent(start)
      modifies this, db
      ensures db.Valid() && stock == old(stock) && params == old(params) && bearer == old(bearer)
      ensures var r := Rescued(start, old(db.State()), old(Value()), e);
        UpdateStep(db.State(), Value(), out) == r
    {
      if e == RecordNotUnique {
        errors := Message(NameTaken);
        out := Returned(false);
      } else {
        db.Rollback(start);
        out := Raised(e);
      }
    }
  }

  // ---------------------------------------------------------------------
  // What CreateForm#save guarantees
  // ---------------------------------------------------------------------

  /** On a consistent database `save` never raises: it returns true and
      inserts exactly one active row built from the params when the stock is
      valid, and otherwise returns false, keeps the full messages and inserts
      nothing. */
  lemma CreateSaveOutcome(db: Db, p: CreateParams)
    requires Consistent(db)
    ensures var s := CreateSaved(db, CreateOpened(p));
      var errs := StockErrors(db, None, CreateColumns(p));
      && s.out == Returned(errs == [])
      && Consistent(s.db) && s.db.bearers == db.bearers
      && (errs == [] ==>
            && s.form.stock.id.Some? && s.form.stock.id.value !in db.stocks
            && s.db.stocks == db.stocks[s.form.stock.id.value := StockRow(p.bearerId, p.name.value, None)]
            && |s.db.stocks| == |db.stocks| + 1
            && s.form.errors == Nil)
      && (errs != [] ==> s.db == db && s.form.errors == Messages(errs))
  {
    var v := Validated(db, CreateOpened(p).stock);
    if v.errors == [] {
      ValidRecordIsStored(db, v);
      InsertStockKeepsConsistent(db, v.attrs);
    }
  }

  /** A valid create adds the new stock to `bearer.stocks` of the route's bearer. */
  lemma CreateAddsToBearerStocks(db: Db, p: CreateParams)
    requires Consistent(db)
    requires CreateSaved(db, CreateOpened(p)).out == Returned(true)
    ensures var s := CreateSaved(db, CreateOpened(p));
      |BearerStocks(s.db, p.bearerId)| == |BearerStocks(db, p.bearerId)| + 1
  {
    CreateSaveOutcome(db, p);
    var v := Validated(db, CreateOpened(p).stock);
    ValidRecordIsStored(db, v);
    CreatedStockJoinsBearer(db, CreateColumns(p));
  }

  /** A name that any other stock row carries, deleted or not, fails with
      exactly the message 'Name has already been taken'. */
  lemma CreateWithTakenName(db: Db, p: CreateParams)
    requires p.bearerId in db.bearers && Present(p.name)
    requires exists other | other in db.stocks :: db.stocks[other].name == p.name.value
    ensures var s := CreateSaved(db, CreateOpened(p));
      s == CreateStep(db, s.form, Returned(false)) && s.form.errors == Messages([NameTaken])
  {
    assert NameUsedElsewhere(db, None, p.name);
  }

  /** A blank name is always refused and nothing is inserted. */
  lemma CreateWithBlankName(db: Db, p: CreateParams)
    requires Blank(p.name)
    ensures var s := CreateSaved(db, CreateOpened(p));
      && s.out == Returned(false) && s.db == db
      && s.form.errors.Messages? && NameCantBeBlank in s.form.errors.list
  {
  }

  // ---------------------------------------------------------------------
  // What UpdateForm#save guarantees
  // ---------------------------------------------------------------------

  /** The form the controller opens on a stock it has just read. */
  function Editing(db: Db, id: Id, p: UpdateParams): (form: UpdateState)
    requires id in db.stocks
  {
    UpdateOpened(Instantiated(id, db.stocks[id]), p)
  }

  /** The columns `save` stages: the resolved bearer and params[:name]. */
  function Staged(f: UpdateState, bearer: Option<Id>): (cols: Columns)
  {
    f.stock.attrs.(bearerId := bearer, name := f.params.name)
  }

  /** The private `bearer` never raises on a consistent database. With a blank
      or absent bearer_name it is the stock's own bearer and nothing is
      written; with a present one it is the bearer of that name, reused when it
      exists and otherwise inserted as exactly one new row. */
  lemma ResolveBearerOutcome(db: Db, id: Id, p: UpdateParams)
    requires Consistent(db) && id in db.stocks
    ensures var (d, b) := ResolvedBearer(db, Editing(db, id, p));
      && b.Ok? && Consistent(d) && d.stocks == db.stocks
      && (!Present(p.bearerName) ==> d == db && b.value == Some(db.stocks[id].bearerId))
      && (Present(p.bearerName) ==>
            && b.value.Some? && b.value.value in d.bearers && d.bearers[b.value.value] == p.bearerName.value
            && (BearerNameTaken(db.bearers, p.bearerName.value) ==> d == db)
            && (!BearerNameTaken(db.bearers, p.bearerName.value) ==>
                  && b.value.value !in db.bearers
                  && d.bearers == db.bearers[b.value.value := p.bearerName.value]
                  && |d.bearers| == |db.bearers| + 1))
  {
    if Present(p.bearerName) {
      FindOrCreateBearerFindsOrAddsOne(db, p.bearerName.value);
    }
  }

  /** `save` on a stock just read from a consistent database never raises. It
      returns true exactly when the staged stock is valid; then the row holds
      the staged columns (written only if they differ from the row) and the
      object is in step with it. Otherwise it returns false with the full
      messages and the stock row is not written, while a bearer created on the
      way stays. */
  lemma UpdateSaveOutcome(db: Db, id: Id, p: UpdateParams)
    requires Consistent(db) && id in db.stocks
    ensures var f := Editing(db, id, p);
      var (d, b) := ResolvedBearer(db, f);
      var s := UpdateSaved(db, f);
      var c := Staged(f, b.value);
      var errs := StockErrors(d, Some(id), c);
      && b.Ok? && s.form.bearer == b.value && s.form.stock.attrs == c && s.form.stock.id == Some(id)
      && s.out == Returned(errs == [])
      && Consistent(s.db) && s.db.bearers == d.bearers
      && (errs == [] ==>
            && s.db.stocks == db.stocks[id := StockRow(c.bearerId.value, c.name.value, c.deletedAt)]
            && (c == RowColumns(db.stocks[id]) ==> s.db == d)
            && s.form.errors == Nil
            && InSync(s.db, s.form.stock) && !Changed(s.form.stock))
      && (errs != [] ==> s.db == d && s.form.errors == Messages(errs))
  {
    var f := Editing(db, id, p);
    ResolveBearerOutcome(db, id, p);
    var (d, b) := ResolvedBearer(db, f);
    var c := Staged(f, b.value);
    var v := Validated(d, f.stock.(attrs := c));
    if v.errors == [] {
      if Changed(v) {
        ValidRecordIsStored(d, v);
        UpdateStockKeepsConsistent(d, id, c);
      } else {
        assert db.stocks[id := StockRow(c.bearerId.value, c.name.value, c.deletedAt)] == db.stocks;
      }
    }
  }

  /** Without a name the update always fails on presence and writes no stock. */
  lemma UpdateWithoutNameFails(db: Db, id: Id, p: UpdateParams)
    requires Consistent(db) && id in db.stocks && p.name.None?
    ensures var s := UpdateSaved(db, Editing(db, id, p));
      && s.out == Returned(false) && s.db.stocks == db.stocks
      && s.form.errors.Messages? && NameCantBeBlank in s.form.errors.list
  {
    UpdateSaveOutcome(db, id, p);
    ResolveBearerOutcome(db, id, p);
  }

  /** Renaming to a name another stock row carries fails with exactly
      'Name has already been taken' and writes no stock. */
  lemma UpdateToTakenNameFails(db: Db, id: Id, other: Id, p: UpdateParams)
    requires Consistent(db) && id in db.stocks && other in db.stocks && other != id
    requires p.name == Some(db.stocks[other].name) && Present(p.name)
    ensures var s := UpdateSaved(db, Editing(db, id, p));
      && s.out == Returned(false) && s.db.stocks == db.stocks
      && s.form.errors == Messages([NameTaken])
  {
    UpdateSaveOutcome(db, id, p);
    ResolveBearerOutcome(db, id, p);
    var (d, b) := ResolvedBearer(db, Editing(db, id, p));
    assert NameUsedElsewhere(d, Some(id), p.name) by {
      assert d.stocks[other].name == p.name.value;
    }
  }

  /** The bearer find_or_create_by! inserts is committed even when the stock
      then fails validation: the transaction block returns false, it does not raise. */
  lemma NewBearerSurvivesFailedUpdate(db: Db, id: Id, p: UpdateParams)
    requires Consistent(db) && id in db.stocks
    requires Present(p.bearerName) && !BearerNameTaken(db.bearers, p.bearerName.value)
    ensures var s := UpdateSaved(db, Editing(db, id, p));
      && BearerNameTaken(s.db.bearers, p.bearerName.value)
      && |s.db.bearers| == |db.bearers| + 1
      && (s.out == Returned(false) ==> s.db.stocks == db.stocks)
  {
    UpdateSaveOutcome(db, id, p);
    ResolveBearerOutcome(db, id, p);
    var (d, b) := ResolvedBearer(db, Editing(db, id, p));
    assert d.bearers[b.value.value] == p.bearerName.value;
  }

  /** A second `save` on the same form returns what the first returned and
      changes nothing: the memoized bearer is reused, so no second bearer is
      created, and the row already holds the staged columns. */
  lemma UpdateSaveIsIdempotent(db: Db, id: Id, p: UpdateParams)
    requires Consistent(db) && id in db.stocks
    ensures var s := UpdateSaved(db, Editing(db, id, p));
      UpdateSaved(s.db, s.form) == UpdateStep(s.db, s.form, s.out)
  {
    var f := Editing(db, id, p);
    UpdateSaveOutcome(db, id, p);
    ResolveBearerOutcome(db, id, p);
    var (d, b) := ResolvedBearer(db, f);
    var c := Staged(f, b.value);
    var v := Validated(d, f.stock.(attrs := c));
    var s := UpdateSaved(db, f);
    if v.errors == [] && Changed(v) {
      ValidRecordIsStored(d, v);
      SameErrorsAfterOwnWrite(d, v, s.db);
    }
  }
}
