/** app/controllers/stocks_controller.rb: the five actions under
    /bearers/:bearer_id/stocks, the scoped lookup behind show, update and
    destroy, and the choice of response. Requests are handled one at a time. */
module Controller {
  import opened Rails
  import opened Schema
  import opened Storage
  import opened Models
  import opened Forms

  /** `{ id:, name:, bearer_name: }` */
  datatype StockJson = StockJson(id: Option<Id>, name: Option<string>, bearerName: string)

  /** One element of the index: `{ id:, name: }` */
  datatype Entry = Entry(id: Id, name: string)

  datatype Response =
    | Rendered(body: StockJson)          // 200 with a stock
    | Listed(entries: set<Entry>)        // 200 with the index; its order is unspecified
    | HeadOk                             // head :ok
    | CreatedJson(body: StockJson)       // 201 with a stock
    | Unprocessable(errors: FormErrors)  // 422 with { errors: }
    | NotFound                           // head :not_found, from rescue_from RecordNotFound
    | ServerError(exception: Exception)  // an exception nothing rescues

  /** `rescue_from ActiveRecord::RecordNotFound, with: :render_404`; any other exception escapes. */
  function RescuedResponse(e: Exception): (resp: Response)
  {
    if e == RecordNotFound then NotFound else ServerError(e)
  }

  /** `index`: Stock.where(bearer_id:), under the default scope. */
  function Index(db: Db, bearerId: Id): (resp: Response)
  {
    Listed(set id | id in Scoped(db) && db.stocks[id].bearerId == bearerId :: Entry(id, db.stocks[id].name))
  }

  /** `stock`: Stock.find_by!(bearer_id:, id:) under the default scope; None is RecordNotFound. */
  function Found(db: Db, bearerId: Id, id: Id): (found: Option<Record>)
  {
    if id in db.stocks && Active(db.stocks[id]) && db.stocks[id].bearerId == bearerId
    then Some(Instantiated(id, db.stocks[id]))
    else None
  }

  /** The stock's JSON; `stock.bearer.name` raises NoMethodError on a nil bearer. */
  function Json(db: Db, r: Record): (json: Result<StockJson>)
  {
    match BearerOf(db, r.attrs)
    case Some(b) => Ok(StockJson(r.id, r.attrs.name, db.bearers[b]))
    case None => Err(NoMethodError)
  }

  /** `show` */
  function Show(db: Db, bearerId: Id, id: Id): (resp: Response)
  {
    match Found(db, bearerId, id)
    case None => NotFound
    case Some(r) =>
      match Json(db, r)
      case Ok(j) => Rendered(j)
      case Err(e) => RescuedResponse(e)
  }

  /** `create` */
  function CreateAction(db: Db, bearerId: Id, name: Option<string>): (after: (Db, Response))
  {
    var s := CreateSaved(db, CreateOpened(CreateParams(name, bearerId)));
    if s.out.Raised? then (s.db, RescuedResponse(s.out.exception))
    else if !s.out.value then (s.db, Unprocessable(s.form.errors))
    else
      match Json(s.db, s.form.stock)
      case Ok(j) => (s.db, CreatedJson(j))
      case Err(e) => (s.db, RescuedResponse(e))
  }

  /** The `elsif form.save ... else` arm of `update`: save once more. */
  ghost function SavedAgain(db: Db, f: UpdateState): (after: (Db, Response))
  {
    var s := UpdateSaved(db, f);
    if s.out.Raised? then (s.db, RescuedResponse(s.out.exception))
    else if s.out.value then (s.db, HeadOk)
    else (s.db, Unprocessable(s.form.errors))
  }

  /** `update`: the full body when save succeeds and the reloaded stock still
      belongs to the route's bearer; otherwise whatever a second save says. */
  ghost function UpdateAction(db: Db, bearerId: Id, id: Id, p: UpdateParams): (after: (Db, Response))
  {
    match Found(db, bearerId, id)
    case None => (db, NotFound)
    case Some(r) =>
      var s := UpdateSaved(db, UpdateOpened(r, p));
      if s.out.Raised? then (s.db, RescuedResponse(s.out.exception))
      else if !s.out.value then SavedAgain(s.db, s.form)
      else
        match Reloaded(s.db, s.form.stock)
        case Err(e) => (s.db, RescuedResponse(e))
        case Ok(again) =>
          if again.attrs.bearerId != Some(bearerId) then SavedAgain(s.db, s.form.(stock := again))
          else
            match Json(s.db, again)
            case Ok(j) => (s.db, Rendered(j))
            case Err(e) => (s.db, RescuedResponse(e))
  }

  /** `destroy` */
  function DestroyAction(db: Db, bearerId: Id, id: Id, now: Time): (after: (Db, Response))
  {
    match Found(db, bearerId, id)
    case None => (db, NotFound)
    case Some(r) =>
      var s := Destroyed(db, r, now);
      if s.out.Raised? then (s.db, RescuedResponse(s.out.exception))
      else if s.out.value then (s.db, HeadOk)
      else (s.db, Unprocessable(Messages(s.rec.errors)))
  }

  // ---------------------------------------------------------------------
  // The actions that change the database
  // ---------------------------------------------------------------------

  /** The private `stock`: null stands for RecordNotFound. Each action below
      calls it once and keeps the object, as the `@stock ||=` memo does. */
  method FindStock(db: Database, bearerId: Id, id: Id) returns (s: Stock?)
    ensures s == null <==> Found(db.State(), bearerId, id).None?
    ensures s != null ==> fresh(s) && s.Value() == Found(db.State(), bearerId, id).value
  {
    if id in db.stocks && Active(db.stocks[id]) && db.stocks[id].bearerId == bearerId {
      s := new Stock.Instantiate(id, db.stocks[id]);
    } else {
      s := null;
    }
  }

  /** The JSON of a stock object. */
  method ToJson(db: Database, s: Stock) returns (j: Result<StockJson>)
    ensures j == Json(db.State(), s.Value())
  {
    if s.attrs.bearerId.Some? && s.attrs.bearerId.value in db.bearers {
      j := Ok(StockJson(s.id, s.attrs.name, db.bearers[s.attrs.bearerId.value]));
    } else {
      j := Err(NoMethodError);
    }
  }

  /** `create` */
  method Create(db: Database, bearerId: Id, name: Option<string>) returns (resp: Response)
    requires db.Valid()
    modifies db
    ensures db.Valid()
    ensures (db.State(), resp) == CreateAction(old(db.State()), bearerId, name)
  {
    var form := new CreateForm(CreateParams(name, bearerId));
    var out := form.Save(db);
    if out.Raised? {
      return RescuedResponse(out.exception);
    }
    if !out.value {
      return Unprocessable(form.errors);
    }
    var j := ToJson(db, form.stock);
    resp := if j.Ok? then CreatedJson(j.value) else RescuedResponse(j.error);
  }

  /** `update` */
  method Update(db: Database, bearerId: Id, id: Id, p: UpdateParams) returns (resp: Response)
    requires db.Valid()
    modifies db
    ensures db.Valid()
    ensures (db.State(), resp) == UpdateAction(old(db.State()), bearerId, id, p)
  {
    var stock := FindStock(db, bearerId, id);
    if stock == null {
      return NotFound;
    }
    var form := new UpdateForm(stock, p);
    var out := form.Save(db);
    if out.Raised? {
      return RescuedResponse(out.exception);
    }
    if out.value {
      var reloaded := form.stock.Reload(db);
      if reloaded.Err? {
        return RescuedResponse(reloaded.error);
      }
      if form.stock.attrs.bearerId == Some(bearerId) {
        var j := ToJson(db, form.stock);
        return if j.Ok? then Rendered(j.value) else RescuedResponse(j.error);
      }
    }
    out := form.Save(db);
    if out.Raised? {
      resp := RescuedResponse(out.exception);
    } else if out.value {
      resp := HeadOk;
    } else {
      resp := Unprocessable(form.errors);
    }
  }

  /** `destroy` */
  method Destroy(db: Database, bearerId: Id, id: Id, now: Time) returns (resp: Response)
    requires db.Valid()
    modifies db
    ensures db.Valid()
    ensures (db.State(), resp) == DestroyAction(old(db.State()), bearerId, id, now)
  {
    var stock := FindStock(db, bearerId, id);
    if stock == null {
      return NotFound;
    }
    var out := stock.Destroy(db, now);
    if out.Raised? {
      resp := RescuedResponse(out.exception);
    } else if out.value {
      resp := HeadOk;
    } else {
      resp := Unprocessable(Messages(stock.errors));
    }
  }

  // ---------------------------------------------------------------------
  // What the actions guarantee
  // ---------------------------------------------------------------------

  /** `index` lists exactly the id and name of each active stock of the
      route's bearer: no deleted stock and no other bearer's stock, and
      nothing at all for a bearer that does not exist. */
  lemma IndexListsBearerStocks(db: Db, bearerId: Id)
    ensures Index(db, bearerId).Listed?
    ensures forall id, name :: Entry(id, name) in Index(db, bearerId).entries <==>
      id in BearerStocks(db, bearerId) && name == db.stocks[id].name
    ensures Consistent(db) && bearerId !in db.bearers ==> Index(db, bearerId).entries == {}
  {
    if Consistent(db) && bearerId !in db.bearers {
      forall id | id in db.stocks
        ensures db.stocks[id].bearerId != bearerId
      {
        assert db.stocks[id].bearerId in db.bearers;
      }
    }
  }

  /** The scoped lookup finds a stock exactly when it is one of `bearer.stocks`. */
  lemma FoundIsBearerStock(db: Db, bearerId: Id, id: Id)
    ensures Found(db, bearerId, id).Some? <==> id in BearerStocks(db, bearerId)
    ensures Found(db, bearerId, id).Some? ==> Found(db, bearerId, id).value == Instantiated(id, db.stocks[id])
  {
  }

  /** `show` renders the stock's id, name and bearer name when the lookup
      finds it, and is a bare 404 otherwise. */
  lemma ShowResponds(db: Db, bearerId: Id, id: Id)
    requires Consistent(db)
    ensures Show(db, bearerId, id) ==
      if id in BearerStocks(db, bearerId)
      then Rendered(StockJson(Some(id), Some(db.stocks[id].name), db.bearers[bearerId]))
      else NotFound
  {
  }

  /** `create` answers 201 with the new stock's id, name and bearer name when
      the stock is valid, after inserting exactly that row; otherwise 422 with
      the full messages and nothing inserted. It never fails with a 500. */
  lemma CreateResponds(db: Db, bearerId: Id, name: Option<string>)
    requires Consistent(db)
    ensures var (d, resp) := CreateAction(db, bearerId, name);
      var errs := StockErrors(db, None, Columns(Some(bearerId), name, None));
      && Consistent(d) && d.bearers == db.bearers
      && (errs == [] ==>
            && resp.CreatedJson? && resp.body.id.Some? && resp.body.id.value !in db.stocks
            && resp.body == StockJson(resp.body.id, name, db.bearers[bearerId])
            && d.stocks == db.stocks[resp.body.id.value := StockRow(bearerId, name.value, None)])
      && (errs != [] ==> d == db && resp == Unprocessable(Messages(errs)))
  {
    CreateSaveOutcome(db, CreateParams(name, bearerId));
  }

  /** `update` on a consistent database: a 404 that changes nothing when the
      lookup fails; otherwise, with `errs` the messages of the staged stock,
      422 with them when there are any, and else the full body when the stock
      still belongs to the route's bearer and an empty 200 when it moved. The
      second save never changes the answer, and no path ends in a 500. */
  lemma UpdateResponds(db: Db, bearerId: Id, id: Id, p: UpdateParams)
    requires Consistent(db)
    ensures var (d, resp) := UpdateAction(db, bearerId, id, p);
      && Consistent(d)
      && (id !in BearerStocks(db, bearerId) ==> d == db && resp == NotFound)
      && (id in BearerStocks(db, bearerId) ==>
            var f := Editing(db, id, p);
            var (d1, b) := ResolvedBearer(db, f);
            var c := Staged(f, b.value);
            var errs := StockErrors(d1, Some(id), c);
            && d.bearers == d1.bearers
            && (errs != [] ==> d.stocks == db.stocks && resp == Unprocessable(Messages(errs)))
            && (errs == [] ==> d.stocks == db.stocks[id := StockRow(c.bearerId.value, c.name.value, None)])
            && (errs == [] && c.bearerId == Some(bearerId) ==>
                  resp == Rendered(StockJson(Some(id), p.name, db.bearers[bearerId])))
            && (errs == [] && c.bearerId != Some(bearerId) ==> resp == HeadOk))
  {
    if id in BearerStocks(db, bearerId) {
      var f := Editing(db, id, p);
      assert Found(db, bearerId, id) == Some(f.stock);
      UpdateSaveOutcome(db, id, p);
      UpdateSaveIsIdempotent(db, id, p);
      ResolveBearerOutcome(db, id, p);
      var s := UpdateSaved(db, f);
      if s.out == Returned(true) {
        assert Reloaded(s.db, s.form.stock) == Ok(s.form.stock);
        assert s.form.(stock := s.form.stock) == s.form;
      }
    }
  }

  /** Renaming a stock without a bearer_name keeps its bearer and renders
      the renamed stock. */
  lemma RenameRendersStock(db: Db, bearerId: Id, id: Id, p: UpdateParams)
    requires Consistent(db) && id in BearerStocks(db, bearerId)
    requires !Present(p.bearerName) && Present(p.name) && !NameUsedElsewhere(db, Some(id), p.name)
    ensures var (d, resp) := UpdateAction(db, bearerId, id, p);
      && resp == Rendered(StockJson(Some(id), p.name, db.bearers[bearerId]))
      && d.bearers == db.bearers
      && d.stocks == db.stocks[id := StockRow(bearerId, p.name.value, None)]
  {
    UpdateResponds(db, bearerId, id, p);
    ResolveBearerOutcome(db, id, p);
  }

  /** Moving a stock to a bearer_name no bearer has creates exactly one
      bearer, points the stock at it, and answers with an empty 200 because
      the stock left the route's bearer. */
  lemma MoveToNewBearerRespondsEmpty(db: Db, bearerId: Id, id: Id, p: UpdateParams)
    requires Consistent(db) && id in BearerStocks(db, bearerId)
    requires Present(p.bearerName) && !BearerNameTaken(db.bearers, p.bearerName.value)
    requires Present(p.name) && !NameUsedElsewhere(db, Some(id), p.name)
    ensures var (d, resp) := UpdateAction(db, bearerId, id, p);
      && resp == HeadOk
      && |d.bearers| == |db.bearers| + 1
      && d.stocks[id].bearerId !in db.bearers
      && d.stocks[id].bearerId in d.bearers && d.bearers[d.stocks[id].bearerId] == p.bearerName.value
      && d.stocks[id].name == p.name.value
  {
    UpdateResponds(db, bearerId, id, p);
    ResolveBearerOutcome(db, id, p);
    var (d1, b) := ResolvedBearer(db, Editing(db, id, p));
    assert !NameUsedElsewhere(d1, Some(id), p.name);
  }

  /** `destroy` of a stock the lookup finds: when the stock still validates,
      an empty 200, the row kept with deleted_at set, one active stock fewer,
      and a 404 for any later lookup; otherwise 422 with the full messages and
      nothing written. A failed lookup is a 404 that changes nothing. */
  lemma DestroyResponds(db: Db, bearerId: Id, id: Id, now: Time)
    requires Consistent(db)
    ensures var (d, resp) := DestroyAction(db, bearerId, id, now);
      && Consistent(d) && d.bearers == db.bearers
      && (id !in BearerStocks(db, bearerId) ==> d == db && resp == NotFound)
      && (id in BearerStocks(db, bearerId) ==>
            var errs := StockErrors(db, Some(id), RowColumns(db.stocks[id]).(deletedAt := Some(now)));
            && (errs == [] ==>
                  && resp == HeadOk
                  && d.stocks == db.stocks[id := db.stocks[id].(deletedAt := Some(now))]
                  && |d.stocks| == |db.stocks|
                  && |Scoped(d)| == |Scoped(db)| - 1
                  && Found(d, bearerId, id).None?)
            && (errs != [] ==> d == db && resp == Unprocessable(Messages(errs))))
  {
    if id in BearerStocks(db, bearerId) {
      DestroySoftDeletes(db, id, now);
    }
  }

  /** Soft delete re-runs the uniqueness validation over every row: a stock
      whose name a deleted row also carries cannot be destroyed. */
  lemma DestroyRefusedByDeletedTwin(db: Db, bearerId: Id, id: Id, other: Id, now: Time)
    requires Consistent(db) && id in BearerStocks(db, bearerId)
    requires other in db.stocks && other != id && db.stocks[other].name == db.stocks[id].name
    ensures var (d, resp) := DestroyAction(db, bearerId, id, now);
      d == db && resp.Unprocessable? && resp.errors.Messages? && NameTaken in resp.errors.list
  {
    DestroyResponds(db, bearerId, id, now);
    assert NameUsedElsewhere(db, Some(id), Some(db.stocks[id].name)) by {
      assert db.stocks[other].name == db.stocks[id].name;
    }
  }

  /** The name of a destroyed stock is not free again: creating a stock with
      it is refused with 'Name has already been taken', though the partial
      index would accept the row. */
  lemma NameOfDestroyedStockStaysTaken(db: Db, bearerId: Id, id: Id, now: Time)
    requires Consistent(db) && id in BearerStocks(db, bearerId)
    requires DestroyAction(db, bearerId, id, now).1 == HeadOk
    ensures var d := DestroyAction(db, bearerId, id, now).0;
      var name := db.stocks[id].name;
      var (d', resp) := CreateAction(d, bearerId, Some(name));
      && d' == d && resp.Unprocessable? && resp.errors.Messages? && NameTaken in resp.errors.list
      && TryInsertStock(d, Columns(Some(bearerId), Some(name), None)).Ok?
  {
    DestroyResponds(db, bearerId, id, now);
    var d := DestroyAction(db, bearerId, id, now).0;
    var name := db.stocks[id].name;
    CreateResponds(d, bearerId, Some(name));
    assert bearerId in d.bearers by {
      assert db.stocks[id].bearerId in db.bearers;
    }
    assert NameUsedElsewhere(d, None, Some(name)) by {
      assert d.stocks[id].name == name;
    }
    assert !ActiveNameTaken(d.stocks, d.nextStockId, name) by {
      forall other | other in d.stocks && other != d.nextStockId && Active(d.stocks[other])
        ensures d.stocks[other].name != name
      {
        if other != id {
          assert d.stocks[other] == db.stocks[other];
        }
      }
    }
  }

  /** The default scope hides exactly the soft-deleted rows: a deleted stock
      is neither found nor listed, while an active one is found and listed
      under its own bearer and no other. */
  lemma DefaultScopeHidesDeleted(db: Db, bearerId: Id, id: Id)
    requires id in db.stocks
    ensures !Active(db.stocks[id]) ==>
      && id !in Scoped(db)
      && Found(db, bearerId, id).None?
      && forall e | e in Index(db, bearerId).entries :: e.id != id
    ensures Active(db.stocks[id]) ==>
      && id in Scoped(db)
      && (Found(db, bearerId, id).Some? <==> db.stocks[id].bearerId == bearerId)
      && (Entry(id, db.stocks[id].name) in Index(db, bearerId).entries <==> db.stocks[id].bearerId == bearerId)
  {
    IndexListsBearerStocks(db, bearerId);
    FoundIsBearerStock(db, bearerId, id);
  }

  /** No action deletes or renames a bearer: `create`, `update` and `destroy`
      keep every bearer under its name, and only `update` adds one, at most. */
  lemma ActionsOnlyAddBearers(db: Db, bearerId: Id, id: Id, name: Option<string>, p: UpdateParams, now: Time)
    requires Consistent(db)
    ensures CreateAction(db, bearerId, name).0.bearers == db.bearers
    ensures DestroyAction(db, bearerId, id, now).0.bearers == db.bearers
    ensures var d := UpdateAction(db, bearerId, id, p).0;
      BearersKept(db.bearers, d.bearers) && |d.bearers| <= |db.bearers| + 1
  {
    CreateResponds(db, bearerId, name);
    DestroyResponds(db, bearerId, id, now);
    UpdateResponds(db, bearerId, id, p);
    if id in BearerStocks(db, bearerId) {
      ResolveBearerOutcome(db, id, p);
    }
  }
}
