/** The product catalog: products, specification definitions with versions, and models changed only by revisions. */
module Catalog {
  import opened Wrappers

  type Id = nat
  type Organization = nat

  datatype Kind = Hardware | Software

  datatype Product = Product(owner: Organization, kind: Kind, name: string, description: string,
                             amount: Option<int>, currency: string, archived: bool)

  datatype Definition = Definition(owner: Organization, kind: Kind, name: string, archived: bool)

  datatype Model = Model(product: Id, name: string, modelNumber: string, archived: bool)

  // A row of an append-only history: entry `number` of the definition or model `of`.
  datatype Entry<T> = Entry(id: Id, of: Id, number: nat, body: T)

  datatype Revision = Revision(parent: Option<Id>, version: Id, contents: nat)

  datatype Db = Db(products: map<Id, Product>, definitions: map<Id, Definition>, versions: seq<Entry<nat>>,
                   models: map<Id, Model>, revisions: seq<Entry<Revision>>)

  datatype CatalogError =
    | Missing | NotSupplier | BadPrice | BadSchema | BadSpecifications | NameTaken | IdTaken
    | DefinitionArchived | ProductArchived | NotApplicable | NumberTaken | NoRevision | Stale | RevisionTaken

  // How prices are checked: the normal form of a currency, and whether an amount can be stated in it.
  datatype Money = Money(normal: string -> Option<string>, valid: (int, string) -> bool)

  // ---- Histories ----

  predicate HasId<T>(rows: seq<Entry<T>>, id: Id) {
    exists i | 0 <= i < |rows| :: rows[i].id == id
  }

  function Find<T>(rows: seq<Entry<T>>, id: Id): Option<Entry<T>> {
    if rows == [] then None
    else if rows[|rows| - 1].id == id then Some(rows[|rows| - 1])
    else Find(rows[..|rows| - 1], id)
  }

  // The row with the highest number.
  function Latest<T>(rows: seq<Entry<T>>, of: Id): Option<Entry<T>> {
    if rows == [] then None
    else
      var last, before := rows[|rows| - 1], Latest(rows[..|rows| - 1], of);
      if last.of != of || (before.Some? && before.value.number > last.number) then before else Some(last)
  }

  // The database refuses a second row with the same id, or the same number for the same owner.
  function Insert<T>(rows: seq<Entry<T>>, row: Entry<T>): Result<seq<Entry<T>>, CatalogError> {
    if HasId(rows, row.id) then Err(IdTaken)
    else if exists i | 0 <= i < |rows| :: rows[i].of == row.of && rows[i].number == row.number then Err(RevisionTaken)
    else Ok(rows + [row])
  }

  // ---- Products ----

  function CheckedPrice(money: Money, amount: Option<int>, currency: string): Result<string, CatalogError> {
    if amount.None? != (currency == "") then Err(BadPrice)
    else if amount.None? then Ok(currency)
    else
      match money.normal(currency)
      case None => Err(BadPrice)
      case Some(code) => if code == "" || !money.valid(amount.value, code) then Err(BadPrice) else Ok(code)
  }

  function CreateProduct(money: Money, db: Db, id: Id, owner: Organization, supplier: bool, kind: Kind, name: string,
                         description: string, amount: Option<int>, currency: string): Result<Db, CatalogError>
  {
    if !supplier then Err(NotSupplier)
    else
      var price := CheckedPrice(money, amount, currency);
      if price.Err? then Err(price.error)
      else if id in db.products then Err(IdTaken)
      else
        var product := Product(owner, kind, name, description, amount, price.value, false);
        Ok(db.(products := db.products[id := product]))
  }

  // An amount or currency left out keeps its stored value.
  function UpdateProduct(money: Money, db: Db, id: Id, name: string, description: string,
                         amount: Option<Option<int>>, currency: Option<string>): Result<Db, CatalogError>
  {
    if id !in db.products then Err(Missing)
    else
      var row := db.products[id];
      var newAmount := if amount.Some? then amount.value else row.amount;
      var price := CheckedPrice(money, newAmount, if currency.Some? then currency.value else row.currency);
      if price.Err? then Err(price.error)
      else
        var changed := row.(name := name, description := description, amount := newAmount, currency := price.value);
        Ok(db.(products := db.products[id := changed]))
  }

  function ArchivedModels(models: map<Id, Model>, product: Id): map<Id, Model> {
    map m | m in models :: if models[m].product == product then models[m].(archived := true) else models[m]
  }

  // Archives the product and every model of it.
  function ArchiveProduct(db: Db, id: Id): Result<Db, CatalogError> {
    if id !in db.products then Err(Missing)
    else
      Ok(db.(
        products := db.products[id := db.products[id].(archived := true)],
        models := ArchivedModels(db.models, id)))
  }

  // ---- Definitions ----

  function CreateDefinition(db: Db, id: Id, versionId: Id, owner: Organization, supplier: bool, kind: Kind, name: string,
                            schemaValid: bool, schema: nat): Result<Db, CatalogError>
  {
    if !supplier then Err(NotSupplier)
    else if id in db.definitions then Err(IdTaken)
    else if exists d | d in db.definitions :: db.definitions[d].owner == owner && db.definitions[d].kind == kind
                                              && db.definitions[d].name == name
    then Err(NameTaken)
    else if !schemaValid then Err(BadSchema)
    else
      match Insert(db.versions, Entry(versionId, id, 1, schema))
      case Err(e) => Err(e)
      case Ok(versions) =>
        Ok(db.(definitions := db.definitions[id := Definition(owner, kind, name, false)], versions := versions))
  }

  function CreateDefinitionVersion(db: Db, id: Id, versionId: Id, schemaValid: bool, schema: nat)
    : Result<Db, CatalogError>
  {
    if id !in db.definitions then Err(Missing)
    else if db.definitions[id].archived then Err(DefinitionArchived)
    else if !schemaValid then Err(BadSchema)
    else
      var current := Latest(db.versions, id);
      var number := if current.Some? then current.value.number + 1 else 1;
      match Insert(db.versions, Entry(versionId, id, number, schema))
      case Err(e) => Err(e)
      case Ok(versions) => Ok(db.(versions := versions))
  }

  // ---- Models ----

  // The version's definition belongs to the product's owner and is for its kind.
  predicate Applies(db: Db, version: Id, product: Product) {
    var row := Find(db.versions, version);
    row.Some? && row.value.of in db.definitions
    && var definition := db.definitions[row.value.of];
       definition.owner == product.owner && definition.kind == product.kind
  }

  predicate NumberUsed(db: Db, product: Id, modelNumber: string, except: set<Id>) {
    exists m | m in db.models :: m !in except && db.models[m].product == product
                                 && db.models[m].modelNumber == modelNumber
  }

  function CreateModel(db: Db, product: Id, id: Id, revisionId: Id, name: string, modelNumber: string, version: Id,
                       valuesValid: bool, contents: nat): Result<Db, CatalogError>
  {
    if product !in db.products then Err(Missing)
    else if db.products[product].archived then Err(ProductArchived)
    else if !Applies(db, version, db.products[product]) then Err(NotApplicable)
    else if !valuesValid then Err(BadSpecifications)
    else if id in db.models then Err(IdTaken)
    else if NumberUsed(db, product, modelNumber, {}) then Err(NumberTaken)
    else
      match Insert(db.revisions, Entry(revisionId, id, 1, Revision(None, version, contents)))
      case Err(e) => Err(e)
      case Ok(revisions) =>
        Ok(db.(models := db.models[id := Model(product, name, modelNumber, false)], revisions := revisions))
  }

  // Succeeds only on the revision the edit began from.
  function ReviseModel(db: Db, id: Id, base: Id, revisionId: Id, name: string, modelNumber: string, version: Id,
                       valuesValid: bool, contents: nat): Result<Db, CatalogError>
  {
    if id !in db.models || db.models[id].product !in db.products then Err(Missing)
    else
      var model, current := db.models[id], Latest(db.revisions, id);
      if current.None? then Err(NoRevision)
      else if current.value.id != base then Err(Stale)
      else if !Applies(db, version, db.products[model.product]) then Err(NotApplicable)
      else if !valuesValid then Err(BadSpecifications)
      else if NumberUsed(db, model.product, modelNumber, {id}) then Err(NumberTaken)
      else if exists i | 0 <= i < |db.revisions| :: db.revisions[i].body.parent == Some(current.value.id) then
        Err(RevisionTaken)
      else
        var row := Entry(revisionId, id, current.value.number + 1, Revision(Some(current.value.id), version, contents));
        match Insert(db.revisions, row)
        case Err(e) => Err(e)
        case Ok(revisions) =>
          Ok(db.(models := db.models[id := model.(name := name, modelNumber := modelNumber)], revisions := revisions))
  }

  function ArchiveModel(db: Db, id: Id): Result<Db, CatalogError> {
    if id !in db.models then Err(Missing)
    else Ok(db.(models := db.models[id := db.models[id].(archived := true)]))
  }
}
