/** The catalog as it runs: each operation one transaction over its tables. */
module CatalogStore {
  import opened Wrappers
  import opened Catalog
  import opened CatalogRuns

  lemma KeepsInvariant(db: Db, step: Step)
    ensures Invariant(db) ==> Invariant(After(db, step))
  {
    hide After, Invariant;
    if Invariant(db) {
      StepKeepsInvariant(db, step);
    }
  }

  class Store {
    const money: Money
    var products: map<Id, Product>
    var definitions: map<Id, Definition>
    var versions: seq<Entry<nat>>
    var models: map<Id, Model>
    var revisions: seq<Entry<Revision>>

    constructor (money: Money)
      ensures this.money == money && State() == EMPTY && Invariant(State())
    {
      this.money := money;
      products, definitions, versions, models, revisions := map[], map[], [], map[], [];
    }

    function State(): Db
      reads this
    {
      Db(products, definitions, versions, models, revisions)
    }

    // What a transaction leaves: its result, or everything as it was.
    predicate Committed(before: Db, result: Result<Db, CatalogError>, outcome: Option<CatalogError>)
      reads this
    {
      match result
      case Ok(db) => outcome == None && State() == db
      case Err(e) => outcome == Some(e) && State() == before
    }

    method AddProduct(id: Id, owner: Organization, supplier: bool, kind: Kind, name: string, description: string,
                      amount: Option<int>, currency: string) returns (outcome: Option<CatalogError>)
      modifies this
      ensures Committed(
                old(State()),
                CreateProduct(money, old(State()), id, owner, supplier, kind, name, description, amount, currency),
                outcome)
      ensures Invariant(old(State())) ==> Invariant(State())
    {
      KeepsInvariant(State(), Step.AddProduct(money, id, owner, supplier, kind, name, description, amount, currency));
      hide Invariant;
      if !supplier {
        return Some(NotSupplier);
      }
      var price := CheckedPrice(money, amount, currency);
      if price.Err? {
        return Some(price.error);
      }
      if id in products {
        return Some(IdTaken);
      }
      products := products[id := Product(owner, kind, name, description, amount, price.value, false)];
      return None;
    }

    method ChangeProduct(id: Id, name: string, description: string, amount: Option<Option<int>>,
                         currency: Option<string>) returns (outcome: Option<CatalogError>)
      modifies this
      ensures Committed(old(State()), UpdateProduct(money, old(State()), id, name, description, amount, currency), outcome)
      ensures Invariant(old(State())) ==> Invariant(State())
    {
      KeepsInvariant(State(), Step.ChangeProduct(money, id, name, description, amount, currency));
      hide Invariant;
      if id !in products {
        return Some(Missing);
      }
      var row := products[id].(name := name, description := description);
      if amount.Some? {
        row := row.(amount := amount.value);
      }
      if currency.Some? {
        row := row.(currency := currency.value);
      }
      var price := CheckedPrice(money, row.amount, row.currency);
      if price.Err? {
        return Some(price.error);
      }
      products := products[id := row.(currency := price.value)];
      return None;
    }

    method RetireProduct(id: Id) returns (outcome: Option<CatalogError>)
      modifies this
      ensures Committed(old(State()), ArchiveProduct(old(State()), id), outcome)
      ensures Invariant(old(State())) ==> Invariant(State())
    {
      KeepsInvariant(State(), Step.RetireProduct(id));
      hide Invariant;
      if id !in products {
        return Some(Missing);
      }
      products := products[id := products[id].(archived := true)];
      ArchiveModelsOf(id);
      return None;
    }

    // Every model of the product, found unarchived one by one.
    method ArchiveModelsOf(product: Id)
      modifies this`models
      ensures models == ArchivedModels(old(models), product)
    {
      ghost var before := models;
      var todo: set<Id> := set m | m in models && models[m].product == product && !models[m].archived;
      while todo != {}
        invariant models.Keys == before.Keys
        invariant forall m | m in todo :: m in before && before[m].product == product
        invariant forall m | m in before ::
                    models[m] == if before[m].product == product && m !in todo then before[m].(archived := true)
                                 else before[m]
        decreases |todo|
      {
        var m :| m in todo;
        models := models[m := models[m].(archived := true)];
        todo := todo - {m};
      }
    }

    method AddDefinition(id: Id, versionId: Id, owner: Organization, supplier: bool, kind: Kind, name: string,
                         schemaValid: bool, schema: nat) returns (outcome: Option<CatalogError>)
      modifies this
      ensures Committed(
                old(State()),
                CreateDefinition(old(State()), id, versionId, owner, supplier, kind, name, schemaValid, schema), outcome)
      ensures Invariant(old(State())) ==> Invariant(State())
    {
      KeepsInvariant(State(), Step.AddDefinition(id, versionId, owner, supplier, kind, name, schemaValid, schema));
      hide Invariant;
      if !supplier {
        return Some(NotSupplier);
      }
      if id in definitions {
        return Some(IdTaken);
      }
      if exists d | d in definitions :: definitions[d].owner == owner && definitions[d].kind == kind
                                        && definitions[d].name == name {
        return Some(NameTaken);
      }
      var saved := definitions;
      definitions := definitions[id := Definition(owner, kind, name, false)];
      if !schemaValid {
        definitions := saved;
        return Some(BadSchema);
      }
      var inserted := Insert(versions, Entry(versionId, id, 1, schema));
      if inserted.Err? {
        definitions := saved;
        return Some(inserted.error);
      }
      versions := inserted.value;
      return None;
    }

    method AddVersion(id: Id, versionId: Id, schemaValid: bool, schema: nat) returns (outcome: Option<CatalogError>)
      modifies this
      ensures Committed(old(State()), CreateDefinitionVersion(old(State()), id, versionId, schemaValid, schema), outcome)
      ensures Invariant(old(State())) ==> Invariant(State())
    {
      KeepsInvariant(State(), Step.AddVersion(id, versionId, schemaValid, schema));
      hide Invariant;
      if id !in definitions {
        return Some(Missing);
      }
      if definitions[id].archived {
        return Some(DefinitionArchived);
      }
      var current := FindLatest(versions, id);
      if !schemaValid {
        return Some(BadSchema);
      }
      var number := if current.Some? then current.value.number + 1 else 1;
      var inserted := Insert(versions, Entry(versionId, id, number, schema));
      if inserted.Err? {
        return Some(inserted.error);
      }
      versions := inserted.value;
      return None;
    }

    method AddModel(product: Id, id: Id, revisionId: Id, name: string, modelNumber: string, version: Id,
                    valuesValid: bool, contents: nat) returns (outcome: Option<CatalogError>)
      modifies this
      ensures Committed(
                old(State()),
                CreateModel(old(State()), product, id, revisionId, name, modelNumber, version, valuesValid, contents),
                outcome)
      ensures Invariant(old(State())) ==> Invariant(State())
    {
      KeepsInvariant(State(), Step.AddModel(product, id, revisionId, name, modelNumber, version, valuesValid, contents));
      hide Invariant;
      if product !in products {
        return Some(Missing);
      }
      if products[product].archived {
        return Some(ProductArchived);
      }
      if !Applies(State(), version, products[product]) {
        return Some(NotApplicable);
      }
      if !valuesValid {
        return Some(BadSpecifications);
      }
      if id in models {
        return Some(IdTaken);
      }
      if NumberUsed(State(), product, modelNumber, {}) {
        return Some(NumberTaken);
      }
      var saved := models;
      models := models[id := Model(product, name, modelNumber, false)];
      var inserted := Insert(revisions, Entry(revisionId, id, 1, Revision(None, version, contents)));
      if inserted.Err? {
        models := saved;
        return Some(inserted.error);
      }
      revisions := inserted.value;
      return None;
    }

    method Revise(id: Id, base: Id, revisionId: Id, name: string, modelNumber: string, version: Id,
                  valuesValid: bool, contents: nat) returns (outcome: Option<CatalogError>)
      modifies this
      ensures Committed(
                old(State()),
                ReviseModel(old(State()), id, base, revisionId, name, modelNumber, version, valuesValid, contents),
                outcome)
      ensures Invariant(old(State())) ==> Invariant(State())
    {
      KeepsInvariant(State(), Step.Revise(id, base, revisionId, name, modelNumber, version, valuesValid, contents));
      hide Invariant;
      if id !in models || models[id].product !in products {
        return Some(Missing);
      }
      var model := models[id];
      var current := FindLatest(revisions, id);
      if current.None? {
        return Some(NoRevision);
      }
      if current.value.id != base {
        return Some(Stale);
      }
      if !Applies(State(), version, products[model.product]) {
        return Some(NotApplicable);
      }
      if !valuesValid {
        return Some(BadSpecifications);
      }
      if NumberUsed(State(), model.product, modelNumber, {id}) {
        return Some(NumberTaken);
      }
      var saved := models;
      models := models[id := model.(name := name, modelNumber := modelNumber)];
      var row := Entry(revisionId, id, current.value.number + 1, Revision(Some(current.value.id), version, contents));
      var inserted := Insert(revisions, row);
      if exists i | 0 <= i < |revisions| :: revisions[i].body.parent == Some(current.value.id) {
        models := saved;
        return Some(RevisionTaken);
      }
      if inserted.Err? {
        models := saved;
        return Some(inserted.error);
      }
      revisions := inserted.value;
      return None;
    }

    method RetireModel(id: Id) returns (outcome: Option<CatalogError>)
      modifies this
      ensures Committed(old(State()), ArchiveModel(old(State()), id), outcome)
      ensures Invariant(old(State())) ==> Invariant(State())
    {
      KeepsInvariant(State(), Step.RetireModel(id));
      hide Invariant;
      if id !in models {
        return Some(Missing);
      }
      models := models[id := models[id].(archived := true)];
      return None;
    }
  }

  // The query that orders a history by falling number and takes the first row.
  method FindLatest<T>(rows: seq<Entry<T>>, of: Id) returns (latest: Option<Entry<T>>)
    ensures latest == Latest(rows, of)
  {
    latest := None;
    for i := 0 to |rows|
      invariant latest == Latest(rows[..i], of)
    {
      assert rows[..i + 1][..i] == rows[..i];
      if rows[i].of == of && (latest.None? || latest.value.number <= rows[i].number) {
        latest := Some(rows[i]);
      }
    }
    assert rows[..|rows|] == rows;
  }
}
