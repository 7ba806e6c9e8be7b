/** When each catalog operation succeeds, and the rows it leaves when it does. */
module CatalogEffects {
  import opened Wrappers
  import opened Catalog
  import opened CatalogRuns

  // ---- Products ----

  // An amount with a currency it can be stated in, in normal form, or neither.
  predicate Priced(money: Money, amount: Option<int>, currency: string, code: string) {
    match amount
    case None => currency == "" && code == ""
    case Some(a) => currency != "" && money.normal(currency) == Some(code) && code != "" && money.valid(a, code)
  }

  /** A supplier's product is stored live as given, its currency in normal form. */
  lemma ProductCreatedExactly(money: Money, db: Db, id: Id, owner: Organization, supplier: bool, kind: Kind, name: string,
                              description: string, amount: Option<int>, currency: string)
    ensures var created := CreateProduct(money, db, id, owner, supplier, kind, name, description, amount, currency);
            && (created.Ok? <==>
                  supplier && id !in db.products && exists code :: Priced(money, amount, currency, code))
            && (created.Ok? ==>
                  && id in created.value.products
                  && var row := created.value.products[id];
                     && row == Product(owner, kind, name, description, amount, row.currency, false)
                     && Priced(money, amount, currency, row.currency)
                     && created.value == db.(products := db.products[id := row]))
  {
    PricedExactly(money, amount, currency);
  }

  lemma PricedExactly(money: Money, amount: Option<int>, currency: string)
    ensures CheckedPrice(money, amount, currency).Ok? <==> exists code :: Priced(money, amount, currency, code)
    ensures CheckedPrice(money, amount, currency).Ok? ==>
              Priced(money, amount, currency, CheckedPrice(money, amount, currency).value)
  {
    if CheckedPrice(money, amount, currency).Ok? {
      assert Priced(money, amount, currency, CheckedPrice(money, amount, currency).value);
    }
  }

  /** An update replaces name and description, and of amount and currency what it gives; owner, kind and archival stay. */
  lemma ProductUpdatedExactly(money: Money, db: Db, id: Id, name: string, description: string,
                              amount: Option<Option<int>>, currency: Option<string>)
    requires id in db.products
    ensures var updated := UpdateProduct(money, db, id, name, description, amount, currency);
            var newAmount := if amount == None then db.products[id].amount else amount.value;
            var newCurrency := if currency == None then db.products[id].currency else currency.value;
            && (updated.Ok? <==> exists code :: Priced(money, newAmount, newCurrency, code))
            && (updated.Ok? ==>
                  && id in updated.value.products
                  && var code := updated.value.products[id].currency;
                     && Priced(money, newAmount, newCurrency, code)
                     && updated.value == db.(products := db.products[id := db.products[id].(
                          name := name, description := description, amount := newAmount, currency := code)]))
  {
    PricedExactly(money, if amount == None then db.products[id].amount else amount.value,
                  if currency == None then db.products[id].currency else currency.value);
    hide CheckedPrice, Priced;
  }

  /** Archiving a product leaves it and every model of it archived, and nothing else changed; archiving a model, that model
      alone. */
  lemma ArchivedExactly(db: Db, id: Id)
    ensures ArchiveProduct(db, id).Ok? <==> id in db.products
    ensures ArchiveModel(db, id).Ok? <==> id in db.models
    ensures id in db.products ==>
              var after := ArchiveProduct(db, id).value;
              && after == db.(products := after.products, models := after.models)
              && after.products == db.products[id := db.products[id].(archived := true)]
              && after.models.Keys == db.models.Keys
              && forall m | m in db.models ::
                   after.models[m] == if db.models[m].product == id then db.models[m].(archived := true) else db.models[m]
    ensures id in db.models ==>
              ArchiveModel(db, id).value == db.(models := db.models[id := db.models[id].(archived := true)])
  {
  }

  // ---- Definitions ----

  /** A supplier's definition is stored live under a name no other of its owner and kind has, with version 1. */
  lemma DefinitionCreatedExactly(db: Db, id: Id, versionId: Id, owner: Organization, supplier: bool, kind: Kind,
                                 name: string, valid: bool, schema: nat)
    requires Invariant(db)
    ensures var created := CreateDefinition(db, id, versionId, owner, supplier, kind, name, valid, schema);
            && (created.Ok? <==>
                  && supplier && valid && id !in db.definitions
                  && (forall d | d in db.definitions && db.definitions[d].owner == owner && db.definitions[d].kind == kind ::
                        db.definitions[d].name != name)
                  && forall row | row in db.versions :: row.id != versionId)
            && (created.Ok? ==>
                  created.value == db.(definitions := db.definitions[id := Definition(owner, kind, name, false)],
                                       versions := db.versions + [Entry(versionId, id, 1, schema)]))
  {
    assert forall row | row in db.versions :: row.of in db.definitions;
    hide Invariant;
    InsertsExactly(db.versions, Entry(versionId, id, 1, schema));
    hide HasId, Insert;
  }

  lemma InsertsExactly<T>(rows: seq<Entry<T>>, row: Entry<T>)
    ensures Insert(rows, row).Ok?
       <==> forall r | r in rows :: r.id != row.id && !(r.of == row.of && r.number == row.number)
    ensures Insert(rows, row).Ok? ==> Insert(rows, row).value == rows + [row]
  {
  }

  /** A live definition gets one version more, numbered after those it has. */
  lemma VersionAddedExactly(db: Db, id: Id, versionId: Id, valid: bool, schema: nat)
    requires Invariant(db)
    ensures var added := CreateDefinitionVersion(db, id, versionId, valid, schema);
            && (added.Ok? <==>
                  && id in db.definitions && !db.definitions[id].archived && valid
                  && forall row | row in db.versions :: row.id != versionId)
            && (added.Ok? ==>
                  added.value == db.(versions := db.versions
                                                 + [Entry(versionId, id, |History(db.versions, id)| + 1, schema)]))
  {
    hide RevisionsHold, ModelsHold, PricesPaired, RevisionsApply, HasId, Length, Latest, Numbered, DistinctIds, History;
    LatestIsTheLength(db.versions, id);
    HistoryLength(db.versions, id);
    InsertsExactly(db.versions, Entry(versionId, id, Length(db.versions, id) + 1, schema));
    assert forall r | r in db.versions && r.of == id :: r.number <= Length(db.versions, id);
    hide Invariant, Insert;
  }

  lemma {:induction false} HistoryLength<T>(rows: seq<Entry<T>>, of: Id)
    ensures |History(rows, of)| == Length(rows, of)
  {
    if rows != [] {
      HistoryLength(rows[..|rows| - 1], of);
    }
  }

  // ---- Models ----

  // The version is of a definition of the product's owner, for its kind.
  ghost predicate MadeFor(db: Db, version: Id, product: Product) {
    exists row | row in db.versions ::
      && row.id == version && row.of in db.definitions
      && db.definitions[row.of].owner == product.owner && db.definitions[row.of].kind == product.kind
  }

  lemma AppliesExactly(db: Db, version: Id, product: Product)
    requires DistinctIds(db.versions)
    ensures Applies(db, version, product) <==> MadeFor(db, version, product)
  {
    FindIsMember(db.versions, version);
    if row :| row in db.versions && row.id == version {
      var i :| 0 <= i < |db.versions| && db.versions[i] == row;
      var found := Find(db.versions, version).value;
      var j :| 0 <= j < |db.versions| && db.versions[j] == found;
      assert found == row;
    }
  }

  // No other model of the product has the number.
  predicate NumberFree(db: Db, product: Id, modelNumber: string, id: Id) {
    forall m | m in db.models && m != id && db.models[m].product == product :: db.models[m].modelNumber != modelNumber
  }

  /** A model is created under a live product, for a version made for it, with valid values and a free number; it is stored
      live with a first revision that has no parent. */
  lemma ModelCreatedExactly(db: Db, product: Id, id: Id, revisionId: Id, name: string, modelNumber: string, version: Id,
                            valid: bool, contents: nat)
    requires Invariant(db)
    ensures var created := CreateModel(db, product, id, revisionId, name, modelNumber, version, valid, contents);
            && (created.Ok? <==>
                  && product in db.products && !db.products[product].archived
                  && MadeFor(db, version, db.products[product]) && valid
                  && id !in db.models && NumberFree(db, product, modelNumber, id)
                  && forall row | row in db.revisions :: row.id != revisionId)
            && (created.Ok? ==>
                  created.value == db.(
                    models := db.models[id := Model(product, name, modelNumber, false)],
                    revisions := db.revisions + [Entry(revisionId, id, 1, Revision(None, version, contents))]))
  {
    assert forall row | row in db.revisions :: row.of in db.models;
    assert DistinctIds(db.versions);
    hide Invariant, Insert, Applies, MadeFor;
    InsertsExactly(db.revisions, Entry(revisionId, id, 1, Revision(None, version, contents)));
    if product in db.products {
      AppliesExactly(db, version, db.products[product]);
    }
  }

  lemma HistoriesHold(db: Db)
    requires Invariant(db)
    ensures DistinctIds(db.versions) && DistinctIds(db.revisions) && Numbered(db.revisions) && Chained(db.revisions)
  {
  }

  // The latest revision of a model has no child yet, and every other has a lower number.
  ghost predicate StandsLast(revisions: seq<Entry<Revision>>, id: Id) {
    var current := Latest(revisions, id);
    current.Some? ==>
      && (forall i | 0 <= i < |revisions| :: revisions[i].body.parent != Some(current.value.id))
      && (forall r | r in revisions && r.of == id :: r.number <= current.value.number)
  }

  lemma LatestStandsLast(revisions: seq<Entry<Revision>>, id: Id)
    requires Numbered(revisions) && Chained(revisions) && DistinctIds(revisions)
    ensures StandsLast(revisions, id)
  {
    LatestIsTheLength(revisions, id);
    if Latest(revisions, id).Some? {
      LatestHasNoChild(revisions, id);
    }
  }

  lemma LatestEndsHistory(revisions: seq<Entry<Revision>>, id: Id)
    requires Numbered(revisions) && Chained(revisions)
    ensures var history := History(revisions, id);
            && Latest(revisions, id) == (if history == [] then None else Some(history[|history| - 1]))
            && (history != [] ==> history[|history| - 1].number == |history|)
  {
    hide History, Latest, Length, Numbered, Chained, Chain;
    HistoryIsAChain(revisions, id);
    LatestIsTheLength(revisions, id);
  }

  lemma RevisesTheLatest(db: Db, id: Id, base: Id, revisionId: Id, name: string, modelNumber: string, version: Id,
                         valid: bool, contents: nat)
    requires StandsLast(db.revisions, id)
    ensures var revised := ReviseModel(db, id, base, revisionId, name, modelNumber, version, valid, contents);
            var current := Latest(db.revisions, id);
            && (revised.Ok? <==>
                  && id in db.models && db.models[id].product in db.products
                  && current.Some? && current.value.id == base
                  && Applies(db, version, db.products[db.models[id].product]) && valid
                  && NumberFree(db, db.models[id].product, modelNumber, id)
                  && forall row | row in db.revisions :: row.id != revisionId)
            && (revised.Ok? ==>
                  revised.value == db.(
                    models := db.models[id := db.models[id].(name := name, modelNumber := modelNumber)],
                    revisions := db.revisions + [Entry(revisionId, id, current.value.number + 1,
                                                       Revision(Some(base), version, contents))]))
  {
    hide Insert, Applies, Latest;
    if Latest(db.revisions, id).Some? {
      InsertsExactly(db.revisions, Entry(revisionId, id, Latest(db.revisions, id).value.number + 1,
                                         Revision(Some(base), version, contents)));
    }
  }

  /** A revision is made exactly on the last one of its model, for a version made for the product, with valid values and a
      free number; it is appended with the next number as that one's child, and the model takes its name and number. */
  lemma RevisedExactly(db: Db, id: Id, base: Id, revisionId: Id, name: string, modelNumber: string, version: Id,
                       valid: bool, contents: nat)
    requires Invariant(db)
    ensures var revised := ReviseModel(db, id, base, revisionId, name, modelNumber, version, valid, contents);
            var history := History(db.revisions, id);
            && (revised.Ok? <==>
                  && id in db.models && db.models[id].product in db.products
                  && history != [] && history[|history| - 1].id == base
                  && MadeFor(db, version, db.products[db.models[id].product]) && valid
                  && NumberFree(db, db.models[id].product, modelNumber, id)
                  && forall row | row in db.revisions :: row.id != revisionId)
            && (revised.Ok? ==>
                  revised.value == db.(
                    models := db.models[id := db.models[id].(name := name, modelNumber := modelNumber)],
                    revisions := db.revisions + [Entry(revisionId, id, |history| + 1,
                                                       Revision(Some(base), version, contents))]))
  {
    hide *;
    HistoriesHold(db);
    LatestStandsLast(db.revisions, id);
    LatestEndsHistory(db.revisions, id);
    RevisesTheLatest(db, id, base, revisionId, name, modelNumber, version, valid, contents);
    if id in db.models && db.models[id].product in db.products {
      AppliesExactly(db, version, db.products[db.models[id].product]);
    }
  }
}
