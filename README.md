# Stocks and bearers, modelled in Dafny

This project models the core of a small Rails JSON API that keeps **stocks**, each owned by a **bearer**. Every stock has a name. Stocks are soft-deleted: `destroy` sets `deleted_at` and keeps the row, and a default scope hides deleted rows from every ordinary read. The API is nested under a bearer (`/bearers/:bearer_id/stocks`). It offers `index`, `show`, `create`, `update` and `destroy`. `update` can rename a stock, and it can move the stock to a bearer given by name, finding that bearer or creating it.

The model has five modules, one per layer of the application:

- `Rails` (`rails.dfy`): exceptions, results, and `blank?`/`present?` on strings.
- `Schema` and `Storage` (`schema.dfy`): the two tables and their constraints as the migrations create them.
  - `bearers.name` is NOT NULL and unique.
  - `stocks.bearer_id` is NOT NULL with a foreign key.
  - `stocks.name` is NOT NULL, with a unique index restricted to rows whose `deleted_at` is null.
  - `Schema` states each write as a pure function that succeeds or names the exception the database raises.
  - `Storage.Database` is the mutable database those functions specify. Its invariant `Valid()` is that every constraint holds.
- `Models` (`models.dfy`): `Stock` and `Bearer` as ActiveRecord models.
  - The default scope, the validators in declaration order with their full messages, and dirty tracking.
  - `save`, `save!`, the soft `destroy`/`destroy!`, `reload` and `find_or_create_by!`.
  - `Models.Stock` is the mutable record object. Each of its methods is proved equal to a pure step function of the old database and the old object.
- `Forms` (`forms.dfy`): `Stocks::CreateForm` and `Stocks::UpdateForm`, as classes that change a shared `Stock` object and the database.
  - The update form's private `bearer` keeps its `||=` memo.
  - Inside `save`'s transaction block, `RecordNotUnique` is rescued, so the block returns false and the transaction commits. Any other exception rolls the transaction back and propagates.
- `Controller` (`controller.dfy`): the five actions, the private `stock` lookup, and `rescue_from RecordNotFound` turning a failed lookup into a 404. Each action is a response datatype paired with the new database. `index` and `show` only read, so they are functions. `create`, `update` and `destroy` are methods on the database, each proved equal to its pure action function.

The lemmas prove the following on a consistent database:

- No action ever answers 500. Every `rescue` branch is unreachable with one writer, because validation is stricter than the storage constraints (`ValidRecordIsStored`).
- `update` answers in one of three ways: 422 with the messages, the full body when the stock still belongs to the route's bearer, or an empty 200 when it moved. Calling `save` a second time never changes the answer.
- `destroy` keeps the row, lowers the active count by one and hides the stock from later lookups.

### Where the code and the documented intent differ (the model follows the code)

- **The name of a soft-deleted stock is not free for reuse.** `validates :name, uniqueness: true` runs its query without the default scope, so deleted rows count. A new stock may not take the name of a deleted one, although the partial index would accept the row. See `Models.DeletedNameIsStillTaken` and `Controller.NameOfDestroyedStockStaysTaken`.
- **Soft delete re-runs every validation.** `destroy` is `update(deleted_at: …)`, which validates again, uniqueness included. An active stock whose name a deleted row also carries cannot be destroyed. See `Controller.DestroyRefusedByDeletedTwin`.
- **An update without a name fails.** `UpdateForm#save` always assigns `params[:name]`, so a request that leaves the name out sets it to nil and fails on presence, rather than keeping the old name. See `Forms.UpdateWithoutNameFails`.
- **A bearer created during a failed update is kept.** A validation failure inside `UpdateForm#save` makes the transaction block return false. It does not raise, so the transaction commits, and a bearer that `find_or_create_by!` inserted stays. See `Forms.NewBearerSurvivesFailedUpdate`.

## Model

| member | source | states |
|---|---|---|
| Schema.BearerNamesUnique | db/migrate/20220507144545_create_bearers.rb:4 | definition of the unique index on bearers.name as an invariant: no two bearers share a name |
| Schema.StockBearersExist | db/migrate/20220507144625_create_stocks.rb:4 | definition of the foreign key as an invariant: every stock's bearer_id is a bearer's id |
| Schema.ActiveNamesUnique | db/migrate/20220507144625_create_stocks.rb:10 | definition of the partial unique index as an invariant: no two rows with a null deleted_at share a name |
| Schema.Consistent | db/migrate/20220507144625_create_stocks.rb:3-11 | definition of the database invariant: all three constraints, with every id below its sequence's next value; kept by every accepted statement (Schema.InsertBearerKeepsConsistent, Schema.InsertStockKeepsConsistent, Schema.UpdateStockKeepsConsistent) |
| Schema.TryInsertBearer | db/migrate/20220507144545_create_bearers.rb:4 | definition of INSERT INTO bearers: NotNullViolation for a nil name, RecordNotUnique for a taken one, else the row under the next id; stated by Schema.InsertBearerAcceptsExactly |
| Schema.TryWriteStock | db/migrate/20220507144625_create_stocks.rb:4-10 | definition of storing a stock row: NotNullViolation, then RecordNotUnique from the partial index, then InvalidForeignKey; stated by Schema.WriteStockAcceptsExactly |
| Schema.TryInsertStock | db/migrate/20220507144625_create_stocks.rb:3-10 | definition of INSERT INTO stocks under the next id; stated by Schema.InsertStockKeepsConsistent |
| Schema.TryUpdateStock | db/migrate/20220507144625_create_stocks.rb:4-10 | definition of UPDATE stocks WHERE id: no matching row is a successful no-op; stated by Schema.UpdateStockKeepsConsistent |
| Schema.InsertBearerAcceptsExactly | db/migrate/20220507144545_create_bearers.rb:4 | an INSERT of a named bearer succeeds iff the new table keeps bearer names unique |
| Schema.WriteStockAcceptsExactly | db/migrate/20220507144625_create_stocks.rb:4-10 | writing a stock row succeeds iff bearer_id and name are non-null, the foreign key holds, and no two active rows share a name |
| Schema.InsertBearerKeepsConsistent | db/migrate/20220507144545_create_bearers.rb:3-4 | an accepted bearer insert keeps every constraint, adds exactly one bearer under a fresh id, and leaves stocks untouched |
| Schema.UpdateStockKeepsConsistent | db/migrate/20220507144625_create_stocks.rb:4-10 | an accepted stock UPDATE keeps every constraint and neither adds nor removes rows |
| Schema.InsertStockKeepsConsistent | db/migrate/20220507144625_create_stocks.rb:3-10 | an accepted stock INSERT keeps every constraint and adds exactly the given row under a fresh id |
| Schema.DeletedRowsMayShareNames | db/migrate/20220507144625_create_stocks.rb:10 | the partial unique index does not constrain deleted rows: a deleted row may repeat any name, and an active row may repeat a name only deleted rows hold |
| Storage.Database.constructor | db/migrate/20220507144625_create_stocks.rb:3-11 | a new database is empty and satisfies every constraint |
| Storage.Database.InsertBearer | db/migrate/20220507144545_create_bearers.rb:4 | INSERT INTO bearers succeeds exactly as the constraint function says, returns the new id, keeps the constraints, and on refusal raises the named exception and changes nothing |
| Storage.Database.InsertStock | db/migrate/20220507144625_create_stocks.rb:4-10 | INSERT INTO stocks succeeds exactly as the constraints allow, returns the new id, and on refusal raises NotNullViolation, RecordNotUnique or InvalidForeignKey and changes nothing |
| Storage.Database.UpdateStock | db/migrate/20220507144625_create_stocks.rb:4-10 | UPDATE of a stock row succeeds exactly as the constraints allow; with no row matching the id it changes nothing and succeeds |
| Storage.Database.Refusal | db/migrate/20220507144625_create_stocks.rb:4-10 | names the first constraint a stock write breaks (NOT NULL, then the partial unique index, then the foreign key), or none exactly when the write is accepted |
| Storage.Database.Rollback | app/forms/stocks/update_form.rb:11-25 | a rolled-back transaction restores the database to its state at the start |
| Models.Scoped | app/models/stock.rb:3 | definition of the default scope: the ids of rows whose deleted_at is null; what it hides is stated by Controller.DefaultScopeHidesDeleted |
| Models.BearerStocks | app/models/bearer.rb:4 | definition of `bearer.stocks`: the default-scoped ids with that bearer_id; stated by Controller.IndexListsBearerStocks and Models.CreatedStockJoinsBearer |
| Models.BearerOf | app/models/stock.rb:4 | definition of `stock.bearer`: the bearer bearer_id points at, nil when there is none; its use is stated by Models.StockErrors |
| Models.NameUsedElsewhere | app/models/stock.rb:6 | definition of the uniqueness validator's query: some row other than the record's own, deleted rows included, has the name; its effect is stated by Models.DeletedNameIsStillTaken |
| Models.Built | app/forms/stocks/create_form.rb:6 | definition of `Stock.new(params)`; implemented by Models.Stock.Build |
| Models.Instantiated | app/controllers/stocks_controller.rb:49 | definition of an object read from a row; implemented by Models.Stock.Instantiate |
| Models.FoundOrCreatedBearer | app/forms/stocks/update_form.rb:31 | definition of `find_or_create_by!`: the bearer of that name, else RecordInvalid for a blank name, else an INSERT; stated by Models.FindOrCreateBearerFindsOrAddsOne |
| Models.Validated | app/models/stock.rb:4-6 | definition of `valid?`: the errors become the full messages; implemented by Models.Stock.Validate |
| Models.Written | app/forms/stocks/update_form.rb:15 | definition of the write half of save: INSERT when new, nothing when unchanged, UPDATE when changed, the statement's exception when refused; stated by Models.ValidRecordIsStored |
| Models.Saved | app/forms/stocks/create_form.rb:11 | definition of `save`; stated by Models.SaveAgainChangesNothing |
| Models.SavedBang | app/forms/stocks/update_form.rb:15 | definition of `save!`; stated by Models.DestroyBangRaisesWhenInvalid |
| Models.Destroyed | app/models/stock.rb:8-10 | definition of `destroy` as `update(deleted_at:)`; stated by Models.DestroySoftDeletes |
| Models.DestroyedBang | app/models/stock.rb:12-14 | definition of `destroy!` as `update!(deleted_at:)`; stated by Models.DestroyBangRaisesWhenInvalid |
| Models.StockErrors | app/models/stock.rb:4-6 | a stock is valid iff its bearer exists, its name is present, and no other row (deleted rows included) has its name; each of the three messages appears exactly when its validator fails |
| Models.BearerErrors | app/models/bearer.rb:2 | a new bearer is valid iff its name is present and no bearer has it yet |
| Models.Reloaded | app/controllers/stocks_controller.rb:28 | `reload` succeeds exactly when the record has an id whose row exists, deleted or not, and otherwise raises RecordNotFound; on success it keeps the id and errors, the object matches its row and has no unsaved changes |
| Models.ValidRecordIsStored | app/models/stock.rb:4-6 | the validators are stricter than the constraints: the database accepts every write of a valid stock, which leaves the database consistent and the object in step with its row |
| Models.DeletedNameIsStillTaken | app/models/stock.rb:3-6 | a name held only by a deleted row fails uniqueness validation, although the database would accept the row |
| Models.FindOrCreateBearerFindsOrAddsOne | app/forms/stocks/update_form.rb:31 | `find_or_create_by!` with a present name never raises: it returns the existing bearer of that name with nothing written, or inserts exactly one |
| Models.BearerIdByNameUnique | app/models/bearer.rb:2 | at most one bearer has a given name, so `find_by(name:)` has one answer |
| Models.SaveAgainChangesNothing | app/models/stock.rb:4-6 | after a successful `save`, saving the same object again returns true and changes neither the database nor the object |
| Models.SameErrorsAfterOwnWrite | app/models/stock.rb:6 | writing a stock's own row does not make it fail uniqueness against itself |
| Models.DestroySoftDeletes | app/models/stock.rb:8-10 | `destroy` never raises. It returns true iff the stock with deleted_at set still validates: the row is kept with deleted_at = now, the row count is unchanged, the active count drops by one and the stock leaves the default scope. Otherwise it keeps the messages and writes nothing |
| Models.DestroyBangRaisesWhenInvalid | app/models/stock.rb:12-14 | `destroy!` raises RecordInvalid exactly when `destroy` returns false, and otherwise does the same as `destroy` |
| Models.CreatedStockJoinsBearer | app/models/bearer.rb:4 | an inserted active stock joins its bearer's `stocks`, which grow by exactly one |
| Models.FindOrCreateBearer | app/forms/stocks/update_form.rb:31 | `Bearer.find_or_create_by!(name:)` returns the bearer of that name, or creates it, exactly as the spec function says; it keeps the constraints |
| Models.Stock.Build | app/forms/stocks/create_form.rb:6 | `Stock.new(params)` is an unsaved object with the given attributes and no errors |
| Models.Stock.Instantiate | app/controllers/stocks_controller.rb:49 | an object read from a row carries the row's columns and no unsaved changes |
| Models.Stock.Validate | app/models/stock.rb:4-6 | `valid?` sets the errors to the full messages in declaration order and returns true iff there are none |
| Models.Stock.Write | app/forms/stocks/update_form.rb:15 | the write half of save: INSERT a new record, skip an unchanged one, UPDATE a changed one; a refused write raises and changes nothing |
| Models.Stock.Save | app/forms/stocks/create_form.rb:11 | `save` returns false with the messages on an invalid record, and otherwise writes it |
| Models.Stock.SaveBang | app/forms/stocks/update_form.rb:15 | `save!` raises RecordInvalid on an invalid record, and otherwise writes it |
| Models.Stock.Destroy | app/models/stock.rb:8-10 | `destroy` is `update(deleted_at: now)`: set deleted_at, then `save` |
| Models.Stock.DestroyBang | app/models/stock.rb:12-14 | `destroy!` is `update!(deleted_at: now)`: set deleted_at, then `save!` |
| Models.Stock.AssignAttributes | app/forms/stocks/update_form.rb:12 | `assign_attributes(bearer:, name:)` sets bearer_id and name and nothing else |
| Models.Stock.Reload | app/controllers/stocks_controller.rb:28 | `reload` raises RecordNotFound when the row is gone, and otherwise replaces the attributes with the row's |
| Forms.CreateColumns | app/controllers/stocks_controller.rb:56-58 | definition of `create_params` as columns: the permitted name, the route's bearer_id, no deleted_at |
| Forms.CreateOpened | app/forms/stocks/create_form.rb:5-7 | definition of `CreateForm.new(params)`; implemented by Forms.CreateForm.constructor |
| Forms.CreateSaved | app/forms/stocks/create_form.rb:9-19 | definition of `CreateForm#save`; implemented by Forms.CreateForm.Save and stated by Forms.CreateSaveOutcome |
| Forms.UpdateOpened | app/forms/stocks/update_form.rb:5-8 | definition of `UpdateForm.new(stock, params)`; implemented by Forms.UpdateForm.constructor |
| Forms.ResolvedBearer | app/forms/stocks/update_form.rb:29-35 | definition of the private `bearer` with its memo; implemented by Forms.UpdateForm.Bearer and stated by Forms.ResolveBearerOutcome |
| Forms.Rescued | app/forms/stocks/update_form.rb:11-24 | definition of an exception inside the transaction block: RecordNotUnique commits and returns false, any other rolls back and propagates; implemented by Forms.UpdateForm.Rescue |
| Forms.UpdateSaved | app/forms/stocks/update_form.rb:10-25 | definition of `UpdateForm#save`; implemented by Forms.UpdateForm.Save and stated by Forms.UpdateSaveOutcome and Forms.UpdateSaveIsIdempotent |
| Forms.Editing | app/controllers/stocks_controller.rb:26 | definition of the form `update` opens on the stock it has just read |
| Forms.Staged | app/forms/stocks/update_form.rb:12 | definition of the columns `assign_attributes(bearer:, name:)` stages |
| Forms.CreateForm.constructor | app/forms/stocks/create_form.rb:5-7 | the form wraps a new unsaved stock built from the params |
| Forms.CreateForm.Save | app/forms/stocks/create_form.rb:9-19 | `save` validates, and on failure sets errors to the full messages and returns false; otherwise it saves, turning RecordNotUnique into 'Name has already been taken' and false |
| Forms.CreateSaveOutcome | app/forms/stocks/create_form.rb:9-19 | `save` never raises on a consistent database. It returns true iff the stock is valid. Then exactly one active row built from the params is inserted under a fresh id. Otherwise the errors are the full messages and nothing is written |
| Forms.CreateAddsToBearerStocks | app/forms/stocks/create_form.rb:9-11 | a successful create grows the route's bearer's `stocks` by one |
| Forms.CreateWithTakenName | app/forms/stocks/create_form.rb:10-14 | a present name that any row carries, deleted or not, fails with exactly ['Name has already been taken'] and writes nothing |
| Forms.CreateWithBlankName | app/forms/stocks/create_form.rb:10-14 | a blank name always fails with "Name can't be blank" among the messages and writes nothing |
| Forms.UpdateForm.constructor | app/forms/stocks/update_form.rb:5-8 | the form keeps the given stock object and params, with no memoized bearer and no errors |
| Forms.UpdateForm.Bearer | app/forms/stocks/update_form.rb:29-35 | the private `bearer` returns the memo when set; otherwise `find_or_create_by!` of a present bearer_name, or the stock's own bearer. A result is memoized |
| Forms.UpdateForm.Save | app/forms/stocks/update_form.rb:10-25 | `save` assigns the resolved bearer and params[:name]. It validates, and on failure returns false with the messages. It calls `save!` only when something changed. Inside the block RecordNotUnique becomes false; any other exception rolls back and propagates |
| Forms.UpdateForm.Rescue | app/forms/stocks/update_form.rb:21-24 | RecordNotUnique is rescued inside the transaction block: false, the message, and what was written is kept. Any other exception rolls the database back to the start of the transaction and propagates |
| Forms.ResolveBearerOutcome | app/forms/stocks/update_form.rb:29-35 | the private `bearer` never raises on a consistent database. A blank bearer_name gives the stock's own bearer with nothing written. A present one gives the bearer of that name: reused if it exists, otherwise exactly one is inserted |
| Forms.UpdateSaveOutcome | app/forms/stocks/update_form.rb:10-25 | `save` never raises on a consistent database. It returns true iff the staged stock (resolved bearer, new name) is valid. Then the row holds exactly the staged columns, an unchanged stock is not written, and the object matches its row. Otherwise it returns the full messages and the stock row is not written |
| Forms.UpdateWithoutNameFails | app/forms/stocks/update_form.rb:12-19 | without a name the update fails on presence and writes no stock |
| Forms.UpdateToTakenNameFails | app/forms/stocks/update_form.rb:12-19 | renaming to a name another row carries fails with exactly ['Name has already been taken'] and writes no stock |
| Forms.NewBearerSurvivesFailedUpdate | app/forms/stocks/update_form.rb:11-24 | a bearer created for a new bearer_name is committed whatever `save` returns, and a failed save leaves the stock rows as they were |
| Forms.UpdateSaveIsIdempotent | app/forms/stocks/update_form.rb:10-35 | calling `save` a second time on the same form returns the same answer and changes nothing; the memo keeps a second bearer from being created |
| Controller.RescuedResponse | app/controllers/stocks_controller.rb:2 | definition of `rescue_from RecordNotFound`: a 404 for RecordNotFound, any other exception escapes |
| Controller.Index | app/controllers/stocks_controller.rb:4-9 | definition of `index`; stated by Controller.IndexListsBearerStocks and Controller.DefaultScopeHidesDeleted |
| Controller.Found | app/controllers/stocks_controller.rb:48-50 | definition of the private `stock` lookup; implemented by Controller.FindStock and stated by Controller.FoundIsBearerStock |
| Controller.Json | app/controllers/stocks_controller.rb:12 | definition of the stock's JSON; implemented by Controller.ToJson |
| Controller.Show | app/controllers/stocks_controller.rb:11-13 | definition of `show`; stated by Controller.ShowResponds |
| Controller.CreateAction | app/controllers/stocks_controller.rb:15-23 | definition of `create`; implemented by Controller.Create and stated by Controller.CreateResponds |
| Controller.SavedAgain | app/controllers/stocks_controller.rb:30-35 | definition of the second `form.save` and its two answers; stated by Controller.UpdateResponds |
| Controller.UpdateAction | app/controllers/stocks_controller.rb:25-36 | definition of `update`; implemented by Controller.Update and stated by Controller.UpdateResponds |
| Controller.DestroyAction | app/controllers/stocks_controller.rb:38-44 | definition of `destroy`; implemented by Controller.Destroy and stated by Controller.DestroyResponds |
| Controller.FindStock | app/controllers/stocks_controller.rb:48-50 | the private `stock` finds a record exactly when an active row has that id and the route's bearer_id |
| Controller.ToJson | app/controllers/stocks_controller.rb:12 | the stock's JSON is its id, its name and its bearer's name; a missing bearer raises NoMethodError |
| Controller.Create | app/controllers/stocks_controller.rb:15-23 | the `create` action changes the database and answers exactly as the create action function says |
| Controller.Update | app/controllers/stocks_controller.rb:25-36 | the `update` action, including the reload and the second `save`, changes the database and answers exactly as the update action function says |
| Controller.Destroy | app/controllers/stocks_controller.rb:38-44 | the `destroy` action changes the database and answers exactly as the destroy action function says |
| Controller.IndexListsBearerStocks | app/controllers/stocks_controller.rb:4-9 | `index` lists an (id, name) pair iff that id is an active stock of the route's bearer with that name. An unknown bearer gets an empty list |
| Controller.FoundIsBearerStock | app/controllers/stocks_controller.rb:48-50 | the lookup succeeds iff the id is one of `bearer.stocks`, and it yields the record read from that row |
| Controller.ShowResponds | app/controllers/stocks_controller.rb:2-13 | `show` renders id, name and bearer name for one of the bearer's active stocks, and is a 404 otherwise |
| Controller.CreateResponds | app/controllers/stocks_controller.rb:15-23 | `create` answers 201 with the new stock's id, name and bearer name after inserting exactly that row, or 422 with the messages and nothing written; never 500 |
| Controller.UpdateResponds | app/controllers/stocks_controller.rb:25-36 | `update` gives a 404 with no change when the lookup fails. Otherwise: 422 with the messages when the staged stock is invalid; the full body when it stays with the route's bearer; an empty 200 when it moved. The row holds the staged columns exactly on success; never 500 |
| Controller.RenameRendersStock | app/controllers/stocks_controller.rb:25-29 | renaming to a free name without bearer_name keeps the bearer, stores the new name and renders the stock |
| Controller.MoveToNewBearerRespondsEmpty | app/controllers/stocks_controller.rb:25-32 | moving a stock to an unknown bearer_name creates exactly one bearer, points the stock at it, renames it, and answers an empty 200 |
| Controller.DestroyResponds | app/controllers/stocks_controller.rb:38-44 | `destroy` never touches the bearers. It gives a 404 with no change when the lookup fails. Otherwise a valid stock gets 200: the row is kept with deleted_at set, the row count is unchanged, the active count is one lower, and later lookups 404. An invalid one gets 422 with the messages and nothing written |
| Controller.DestroyRefusedByDeletedTwin | app/models/stock.rb:6-10 | a stock whose name a deleted row also carries cannot be destroyed: 422 with 'Name has already been taken' and nothing written |
| Controller.NameOfDestroyedStockStaysTaken | app/models/stock.rb:3-10 | after a destroy, creating a stock with the destroyed stock's name is refused with 'Name has already been taken', although the partial index would accept the row |
| Controller.DefaultScopeHidesDeleted | app/models/stock.rb:3 | a deleted stock is out of the default scope, is not found by the lookup and is not listed by `index`; an active one is found and listed exactly under its own bearer |
| Controller.ActionsOnlyAddBearers | app/models/bearer.rb:1-5 | the bearers table only grows: `create` and `destroy` leave it equal, and `update` keeps every bearer under its name and adds at most one |

## Left out

- HTTP, routing, JSON rendering and parameter parsing are not modelled. An action takes the route's bearer id and the permitted params (`create_params`, `update_params`) as already-parsed values. The `ParameterMissing` that `params.require(:stock)` raises is not modelled.
- The route parameter is a string, and `update` compares ids through `to_s`. The model compares integer ids, so a route id written with leading zeros is not covered.
- Concurrency is not modelled. Every database statement is atomic and only one request runs at a time. With one writer, the `RecordNotUnique` rescues and the unique-index race are unreachable, and the lemmas prove it. Their behaviour is still modelled on the paths that reach them, except for the id sequence (next line).
- PostgreSQL refuses every later statement in a transaction after an error inside it. The model takes the rescued `RecordNotUnique` path to commit what was written before the error.
- Ids are handed out without gaps. In PostgreSQL a refused INSERT still uses up its sequence value, and a ROLLBACK does not return values drawn inside the transaction. In the model a refused insert does not advance the sequence, and `Storage.Database.Rollback` restores it. With one writer these paths are unreachable, so no proved property depends on it. The ids the real database assigns may skip values that the model's ids do not.
- Timestamps (`created_at`, `updated_at`) are not modelled. `Time.current` is an input to `destroy` and `destroy!`.
- A rollback restores the database but not the in-memory attributes of the record objects. `Forms.UpdateForm.Rescue` leaves the objects as they are.
- `index` returns a set of (id, name) entries. Neither the order of the rows nor pagination is modelled.
- The controller's `@stock ||=` memo is a local object that each action looks up once. That is all any action does with it.
- `[[:space:]]` in `blank?` is the ASCII whitespace plus the Unicode space separators and line and paragraph separators. No other Unicode property is modelled.
- `Models.FindOrCreateBearer`: `find_or_create_by!` is specified by a ghost function that picks the bearer of that name with `:|`. The proof that bearer names are unique makes that choice the one `find_by` returns.
- `Controller.DestroyRefusedByDeletedTwin` states only that 'Name has already been taken' is among the messages. A blank stored name would add the presence message too.
- `Controller.NameOfDestroyedStockStaysTaken` states only that 'Name has already been taken' is among the messages, for the same reason.
- The `bearers#index` route and the `Bearer` model's own create path are not part of this model, apart from `find_or_create_by!`.
