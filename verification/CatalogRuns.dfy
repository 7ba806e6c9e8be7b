/** What every interleaving of catalog operations keeps. */
module CatalogRuns {
  import opened Wrappers
  import opened Catalog

  // ---- Histories ----

  function Length<T>(rows: seq<Entry<T>>, of: Id): nat {
    if rows == [] then 0
    else Length(rows[..|rows| - 1], of) + if rows[|rows| - 1].of == of then 1 else 0
  }

  // Each row's number is one more than the rows its owner had before.
  predicate Numbered<T>(rows: seq<Entry<T>>) {
    rows == []
    || (Numbered(rows[..|rows| - 1]) && rows[|rows| - 1].number == Length(rows[..|rows| - 1], rows[|rows| - 1].of) + 1)
  }

  // Each revision's parent is the one that was latest before it.
  predicate Chained(rows: seq<Entry<Revision>>) {
    rows == []
    || (Chained(rows[..|rows| - 1])
        && rows[|rows| - 1].body.parent
           == match Latest(rows[..|rows| - 1], rows[|rows| - 1].of) { case None => None case Some(p) => Some(p.id) })
  }

  ghost predicate DistinctIds<T>(rows: seq<Entry<T>>) {
    forall i, j | 0 <= i < j < |rows| :: rows[i].id != rows[j].id
  }

  lemma {:induction false} LatestIsTheLength<T>(rows: seq<Entry<T>>, of: Id)
    requires Numbered(rows)
    ensures Latest(rows, of) == None <==> Length(rows, of) == 0
    ensures Latest(rows, of).Some? ==> Latest(rows, of).value.number == Length(rows, of)
                                       && Latest(rows, of).value.of == of && Latest(rows, of).value in rows
    ensures forall r | r in rows && r.of == of :: 1 <= r.number <= Length(rows, of)
  {
    if rows != [] {
      LatestIsTheLength(rows[..|rows| - 1], of);
      assert forall r :: r in rows <==> r in rows[..|rows| - 1] || r == rows[|rows| - 1];
    }
  }

  // The rows of one owner, in the order they were added.
  function History<T>(rows: seq<Entry<T>>, of: Id): seq<Entry<T>> {
    if rows == [] then []
    else History(rows[..|rows| - 1], of) + if rows[|rows| - 1].of == of then [rows[|rows| - 1]] else []
  }

  // Numbered from one, each the child of the one before.
  predicate Chain(history: seq<Entry<Revision>>) {
    forall k | 0 <= k < |history| :: Linked(history, k)
  }

  predicate Linked(history: seq<Entry<Revision>>, k: nat)
    requires k < |history|
  {
    && history[k].number == k + 1
    && history[k].body.parent == if k == 0 then None else Some(history[k - 1].id)
  }

  lemma ChainGrows(history: seq<Entry<Revision>>, row: Entry<Revision>)
    requires Chain(history) && row.number == |history| + 1
    requires row.body.parent == if |history| == 0 then None else Some(history[|history| - 1].id)
    ensures Chain(history + [row])
  {
    forall k | 0 <= k < |history| ensures Linked(history + [row], k) {
      assert Linked(history, k);
    }
  }

  lemma {:induction false} HistoryIsAChain(rows: seq<Entry<Revision>>, of: Id)
    requires Numbered(rows) && Chained(rows)
    ensures |History(rows, of)| == Length(rows, of)
    ensures Latest(rows, of) == if History(rows, of) == [] then None else Some(History(rows, of)[Length(rows, of) - 1])
    ensures Chain(History(rows, of))
  {
    if rows != [] {
      var before, last := rows[..|rows| - 1], rows[|rows| - 1];
      HistoryIsAChain(before, of);
      LatestIsTheLength(before, of);
      if last.of == of {
        ChainGrows(History(before, of), last);
      } else {
        assert History(rows, of) == History(before, of);
      }
      hide Chain;
    }
  }

  lemma NextIsNumbered<T>(rows: seq<Entry<T>>, row: Entry<T>)
    requires Numbered(rows) && row.number == Length(rows, row.of) + 1
    ensures Numbered(rows + [row])
    ensures forall i | 0 <= i < |rows| && rows[i].of == row.of :: rows[i].number != row.number
  {
    assert (rows + [row])[..|rows|] == rows;
    LatestIsTheLength(rows, row.of);
    forall i | 0 <= i < |rows| && rows[i].of == row.of ensures rows[i].number != row.number {
      assert rows[i] in rows;
    }
  }

  // The last row, and the history before it.
  lemma LastRow(rows: seq<Entry<Revision>>)
    requires Numbered(rows) && Chained(rows) && DistinctIds(rows) && rows != []
    ensures var before, last := rows[..|rows| - 1], rows[|rows| - 1];
            && Numbered(before) && Chained(before) && DistinctIds(before)
            && (forall i | 0 <= i < |before| :: before[i].id != last.id)
            && (forall of :: Latest(rows, of) == if last.of == of then Some(last) else Latest(before, of))
            && (last.body.parent.Some? ==>
                  exists j :: 0 <= j < |before| && before[j].id == last.body.parent.value && before[j].of == last.of)
  {
    var before, last := rows[..|rows| - 1], rows[|rows| - 1];
    LatestIsTheLength(before, last.of);
  }

  // No child of the latest revision exists yet.
  lemma {:induction false} LatestHasNoChild(rows: seq<Entry<Revision>>, of: Id)
    requires Numbered(rows) && Chained(rows) && DistinctIds(rows) && Latest(rows, of).Some?
    ensures forall i | 0 <= i < |rows| :: rows[i].body.parent != Some(Latest(rows, of).value.id)
  {
    var before, last := rows[..|rows| - 1], rows[|rows| - 1];
    LastRow(rows);
    LatestIsTheLength(rows, of);
    if last.of == of {
      ParentsComeBefore(before);
    } else {
      LatestHasNoChild(before, of);
      LatestIsTheLength(before, of);
      assert DistinctIds(before);
    }
    hide Numbered, Chained, Latest, Length;
  }

  lemma {:induction false} ParentsComeBefore(rows: seq<Entry<Revision>>)
    requires Numbered(rows) && Chained(rows)
    ensures forall i | 0 <= i < |rows| && rows[i].body.parent.Some? ::
              exists j :: 0 <= j < |rows| && rows[j].id == rows[i].body.parent.value
  {
    if rows != [] {
      ParentsComeBefore(rows[..|rows| - 1]);
      LatestIsTheLength(rows[..|rows| - 1], rows[|rows| - 1].of);
    }
  }

  // ---- The invariant ----

  ghost predicate VersionsHold(definitions: map<Id, Definition>, versions: seq<Entry<nat>>) {
    && Numbered(versions) && DistinctIds(versions)
    && (forall row | row in versions :: row.of in definitions)
    && (forall a, b | a in definitions && b in definitions && a != b ::
          definitions[a].owner != definitions[b].owner || definitions[a].kind != definitions[b].kind
          || definitions[a].name != definitions[b].name)
  }

  // Every model has a revision, and every revision a model.
  ghost predicate RevisionsHold(models: map<Id, Model>, revisions: seq<Entry<Revision>>) {
    && Numbered(revisions) && Chained(revisions) && DistinctIds(revisions)
    && (forall row | row in revisions :: row.of in models)
    && (forall m | m in models :: Length(revisions, m) >= 1)
  }

  // An archived product has no unarchived model, and a model number names one model of a product.
  ghost predicate ModelsHold(products: map<Id, Product>, models: map<Id, Model>) {
    && (forall m | m in models ::
          models[m].product in products && (products[models[m].product].archived ==> models[m].archived))
    && (forall a, b | a in models && b in models && a != b ::
          models[a].product != models[b].product || models[a].modelNumber != models[b].modelNumber)
  }

  ghost predicate PricesPaired(products: map<Id, Product>) {
    forall p | p in products :: products[p].amount.None? <==> products[p].currency == ""
  }

  // Every revision's definition has the owner and the kind of the model's product.
  ghost predicate RevisionsApply(db: Db) {
    forall row | row in db.revisions ::
      row.of in db.models && db.models[row.of].product in db.products
      && Applies(db, row.body.version, db.products[db.models[row.of].product])
  }

  ghost predicate Invariant(db: Db) {
    && VersionsHold(db.definitions, db.versions)
    && RevisionsHold(db.models, db.revisions)
    && ModelsHold(db.products, db.models)
    && PricesPaired(db.products)
    && RevisionsApply(db)
  }

  lemma {:induction false} FindIsMember<T>(rows: seq<Entry<T>>, id: Id)
    ensures Find(rows, id).Some? <==> HasId(rows, id)
    ensures Find(rows, id).Some? ==> Find(rows, id).value in rows && Find(rows, id).value.id == id
  {
    if rows != [] {
      FindIsMember(rows[..|rows| - 1], id);
      if i :| 0 <= i < |rows| - 1 && rows[i].id == id {
        assert rows[..|rows| - 1][i].id == id;
      }
    }
  }

  lemma FindSnoc<T>(rows: seq<Entry<T>>, row: Entry<T>, id: Id)
    requires !HasId(rows, row.id) && Find(rows, id).Some?
    ensures Find(rows + [row], id) == Find(rows, id)
  {
  }

  lemma {:induction false} NoRowsNoLength<T>(rows: seq<Entry<T>>, of: Id)
    requires forall row | row in rows :: row.of != of
    ensures Length(rows, of) == 0 && Latest(rows, of) == None
  {
    if rows != [] {
      NoRowsNoLength(rows[..|rows| - 1], of);
    }
  }

  // ---- One operation ----

  lemma ProductSaved(db: Db, id: Id, product: Product)
    requires Invariant(db) && (product.amount.None? <==> product.currency == "")
    requires id in db.products ==> product.owner == db.products[id].owner && product.kind == db.products[id].kind
                                   && product.archived == db.products[id].archived
    ensures Invariant(db.(products := db.products[id := product]))
  {
  }

  lemma CreateProductKeeps(money: Money, db: Db, id: Id, owner: Organization, supplier: bool, kind: Kind, name: string,
                           description: string, amount: Option<int>, currency: string)
    requires Invariant(db)
    ensures var created := CreateProduct(money, db, id, owner, supplier, kind, name, description, amount, currency);
            created.Ok? ==> Invariant(created.value)
  {
    hide Invariant;
    var price := CheckedPrice(money, amount, currency);
    if price.Ok? && id !in db.products {
      ProductSaved(db, id, Product(owner, kind, name, description, amount, price.value, false));
    }
  }

  lemma UpdateProductKeeps(money: Money, db: Db, id: Id, name: string, description: string,
                           amount: Option<Option<int>>, currency: Option<string>)
    requires Invariant(db)
    ensures var updated := UpdateProduct(money, db, id, name, description, amount, currency);
            updated.Ok? ==> Invariant(updated.value)
  {
  }

  lemma ArchiveProductKeeps(db: Db, id: Id)
    requires Invariant(db) && ArchiveProduct(db, id).Ok?
    ensures Invariant(ArchiveProduct(db, id).value)
  {
  }

  lemma ArchiveModelKeeps(db: Db, id: Id)
    requires Invariant(db) && ArchiveModel(db, id).Ok?
    ensures Invariant(ArchiveModel(db, id).value)
  {
  }

  lemma VersionAdded(db: Db, definitions: map<Id, Definition>, row: Entry<nat>)
    requires RevisionsApply(db) && Insert(db.versions, row).Ok?
    requires forall d | d in db.definitions :: d in definitions && definitions[d] == db.definitions[d]
    ensures RevisionsApply(db.(definitions := definitions, versions := db.versions + [row]))
  {
    var after := db.(definitions := definitions, versions := db.versions + [row]);
    forall r | r in db.revisions ensures Applies(after, r.body.version, db.products[db.models[r.of].product]) {
      FindSnoc(db.versions, row, r.body.version);
    }
  }

  lemma VersionRowKeeps(definitions: map<Id, Definition>, versions: seq<Entry<nat>>, row: Entry<nat>)
    requires Numbered(versions) && DistinctIds(versions) && Insert(versions, row).Ok?
    requires row.number == Length(versions, row.of) + 1
    requires forall r | r in versions :: r.of in definitions
    requires row.of in definitions
    ensures var after := versions + [row];
            Numbered(after) && DistinctIds(after) && forall r | r in after :: r.of in definitions
  {
    hide Length;
    var after := versions + [row];
    assert after[..|after| - 1] == versions;
    assert forall r :: r in after <==> r in versions || r == row;
  }

  lemma CreateDefinitionKeeps(db: Db, id: Id, versionId: Id, owner: Organization, supplier: bool, kind: Kind,
                              name: string, schemaValid: bool, schema: nat)
    requires Invariant(db)
    ensures var created := CreateDefinition(db, id, versionId, owner, supplier, kind, name, schemaValid, schema);
            created.Ok? ==> Invariant(created.value)
  {
    hide Numbered, DistinctIds, RevisionsHold, ModelsHold, PricesPaired, RevisionsApply, Length, Latest, HasId;
    var created := CreateDefinition(db, id, versionId, owner, supplier, kind, name, schemaValid, schema);
    if created.Ok? {
      var row := Entry(versionId, id, 1, schema);
      NoRowsNoLength(db.versions, id);
      VersionRowKeeps(created.value.definitions, db.versions, row);
      VersionAdded(db, created.value.definitions, row);
    }
  }

  lemma CreateDefinitionVersionKeeps(db: Db, id: Id, versionId: Id, schemaValid: bool, schema: nat)
    requires Invariant(db)
    ensures var versioned := CreateDefinitionVersion(db, id, versionId, schemaValid, schema);
            versioned.Ok? ==> Invariant(versioned.value)
  {
    hide Numbered, DistinctIds, RevisionsHold, ModelsHold, PricesPaired, RevisionsApply, Length, Latest, HasId;
    var versioned := CreateDefinitionVersion(db, id, versionId, schemaValid, schema);
    if versioned.Ok? {
      LatestIsTheLength(db.versions, id);
      var row := Entry(versionId, id, Length(db.versions, id) + 1, schema);
      VersionRowKeeps(db.definitions, db.versions, row);
      VersionAdded(db, db.definitions, row);
    }
  }

  lemma RevisionRowKeeps(models: map<Id, Model>, after: map<Id, Model>, revisions: seq<Entry<Revision>>,
                         row: Entry<Revision>)
    requires RevisionsHold(models, revisions) && Insert(revisions, row).Ok? && after.Keys == models.Keys + {row.of}
    requires row.number == Length(revisions, row.of) + 1
    requires row.body.parent == match Latest(revisions, row.of) { case None => None case Some(p) => Some(p.id) }
    ensures RevisionsHold(after, revisions + [row])
  {
  }

  lemma ModelSaved(products: map<Id, Product>, models: map<Id, Model>, id: Id, model: Model)
    requires ModelsHold(products, models) && model.product in products
    requires products[model.product].archived ==> model.archived
    requires forall m | m in models && m != id ::
               models[m].product != model.product || models[m].modelNumber != model.modelNumber
    ensures ModelsHold(products, models[id := model])
  {
  }

  lemma RevisionAdded(db: Db, id: Id, model: Model, row: Entry<Revision>)
    requires RevisionsApply(db) && row.of == id && (id in db.models ==> model.product == db.models[id].product)
    requires model.product in db.products && Applies(db, row.body.version, db.products[model.product])
    ensures RevisionsApply(db.(models := db.models[id := model], revisions := db.revisions + [row]))
  {
  }

  lemma CreateModelKeeps(db: Db, product: Id, id: Id, revisionId: Id, name: string, modelNumber: string, version: Id,
                         valuesValid: bool, contents: nat)
    requires Invariant(db)
    ensures var created := CreateModel(db, product, id, revisionId, name, modelNumber, version, valuesValid, contents);
            created.Ok? ==> Invariant(created.value)
  {
    hide Applies;
    var created := CreateModel(db, product, id, revisionId, name, modelNumber, version, valuesValid, contents);
    if created.Ok? {
      var model := Model(product, name, modelNumber, false);
      var row := Entry(revisionId, id, 1, Revision(None, version, contents));
      NoRowsNoLength(db.revisions, id);
      RevisionRowKeeps(db.models, created.value.models, db.revisions, row);
      ModelSaved(db.products, db.models, id, model);
      RevisionAdded(db, id, model, row);
      hide VersionsHold, RevisionsHold, ModelsHold, PricesPaired, RevisionsApply, Length, NumberUsed;
    }
  }

  lemma ReviseModelKeeps(db: Db, id: Id, base: Id, revisionId: Id, name: string, modelNumber: string, version: Id,
                         valuesValid: bool, contents: nat)
    requires Invariant(db)
    ensures var revised := ReviseModel(db, id, base, revisionId, name, modelNumber, version, valuesValid, contents);
            revised.Ok? ==> Invariant(revised.value)
  {
    hide Applies, VersionsHold, PricesPaired, RevisionsApply, Numbered, DistinctIds, Chained, Length, Latest, HasId;
    var revised := ReviseModel(db, id, base, revisionId, name, modelNumber, version, valuesValid, contents);
    if revised.Ok? {
      LatestIsTheLength(db.revisions, id);
      var row := Entry(revisionId, id, Length(db.revisions, id) + 1, Revision(Some(base), version, contents));
      var model := db.models[id].(name := name, modelNumber := modelNumber);
      assert revised.value.models == db.models[id := model] && revised.value.revisions == db.revisions + [row];
      RevisionRowKeeps(db.models, revised.value.models, db.revisions, row);
      ModelSaved(db.products, db.models, id, model);
      RevisionAdded(db, id, model, row);
      hide VersionsHold, RevisionsHold, ModelsHold, PricesPaired, RevisionsApply, Length, NumberUsed;
    }
  }

  /** The unique revision number and the one-child-per-parent constraints never refuse anything. */
  lemma RevisionsNeverClash(db: Db, id: Id, base: Id, newId: Id, name: string, modelNumber: string, version: Id,
                            valid: bool, contents: nat)
    requires Invariant(db)
    ensures ReviseModel(db, id, base, newId, name, modelNumber, version, valid, contents) != Err(RevisionTaken)
  {
    hide VersionsHold, ModelsHold, PricesPaired, RevisionsApply, Applies, NumberUsed, HasId, Length, Latest, Numbered,
         Chained, DistinctIds;
    LatestIsTheLength(db.revisions, id);
    NextIsNumbered(db.revisions, Entry(newId, id, Length(db.revisions, id) + 1, Revision(Some(base), version, contents)));
    if Latest(db.revisions, id).Some? {
      LatestHasNoChild(db.revisions, id);
    }
  }

  lemma VersionsNeverClash(db: Db, id: Id, newId: Id, valid: bool, contents: nat)
    requires Invariant(db)
    ensures CreateDefinitionVersion(db, id, newId, valid, contents) != Err(RevisionTaken)
  {
    hide RevisionsHold, ModelsHold, PricesPaired, RevisionsApply, HasId, Length, Latest, Numbered, DistinctIds;
    LatestIsTheLength(db.versions, id);
    NextIsNumbered(db.versions, Entry(newId, id, Length(db.versions, id) + 1, contents));
  }

  // ---- Runs ----

  datatype Step =
    | AddProduct(money: Money, id: Id, owner: Organization, supplier: bool, kind: Kind, name: string,
                 description: string, amount: Option<int>, currency: string)
    | ChangeProduct(money: Money, id: Id, name: string, description: string,
                    newAmount: Option<Option<int>>, newCurrency: Option<string>)
    | RetireProduct(id: Id)
    | AddDefinition(id: Id, versionId: Id, owner: Organization, supplier: bool, kind: Kind, name: string, valid: bool,
                    contents: nat)
    | AddVersion(id: Id, versionId: Id, valid: bool, contents: nat)
    | AddModel(product: Id, id: Id, revisionId: Id, name: string, modelNumber: string, version: Id, valid: bool,
               contents: nat)
    | Revise(id: Id, base: Id, revisionId: Id, name: string, modelNumber: string, version: Id, valid: bool,
             contents: nat)
    | RetireModel(id: Id)

  function Outcome(db: Db, step: Step): Result<Db, CatalogError> {
    match step
    case AddProduct(money, id, owner, supplier, kind, name, description, amount, currency) =>
      CreateProduct(money, db, id, owner, supplier, kind, name, description, amount, currency)
    case ChangeProduct(money, id, name, description, amount, currency) =>
      UpdateProduct(money, db, id, name, description, amount, currency)
    case RetireProduct(id) => ArchiveProduct(db, id)
    case AddDefinition(id, versionId, owner, supplier, kind, name, valid, contents) =>
      CreateDefinition(db, id, versionId, owner, supplier, kind, name, valid, contents)
    case AddVersion(id, versionId, valid, contents) => CreateDefinitionVersion(db, id, versionId, valid, contents)
    case AddModel(product, id, revisionId, name, modelNumber, version, valid, contents) =>
      CreateModel(db, product, id, revisionId, name, modelNumber, version, valid, contents)
    case Revise(id, base, revisionId, name, modelNumber, version, valid, contents) =>
      ReviseModel(db, id, base, revisionId, name, modelNumber, version, valid, contents)
    case RetireModel(id) => ArchiveModel(db, id)
  }

  // A refused step changes nothing.
  function After(db: Db, step: Step): Db {
    if Outcome(db, step).Ok? then Outcome(db, step).value else db
  }

  function Run(db: Db, steps: seq<Step>): Db
    decreases |steps|
  {
    if steps == [] then db else Run(After(db, steps[0]), steps[1..])
  }

  lemma StepKeepsInvariant(db: Db, step: Step)
    requires Invariant(db)
    ensures Invariant(After(db, step))
  {
    hide Invariant, CreateProduct, UpdateProduct, ArchiveProduct, CreateDefinition, CreateDefinitionVersion, CreateModel,
         ReviseModel, ArchiveModel;
    match step
    case AddProduct(money, id, owner, supplier, kind, name, description, amount, currency) =>
      CreateProductKeeps(money, db, id, owner, supplier, kind, name, description, amount, currency);
    case ChangeProduct(money, id, name, description, amount, currency) =>
      UpdateProductKeeps(money, db, id, name, description, amount, currency);
    case RetireProduct(id) =>
      if Outcome(db, step).Ok? {
        ArchiveProductKeeps(db, id);
      }
    case AddDefinition(id, versionId, owner, supplier, kind, name, valid, contents) =>
      CreateDefinitionKeeps(db, id, versionId, owner, supplier, kind, name, valid, contents);
    case AddVersion(id, versionId, valid, contents) => CreateDefinitionVersionKeeps(db, id, versionId, valid, contents);
    case AddModel(product, id, revisionId, name, modelNumber, version, valid, contents) =>
      CreateModelKeeps(db, product, id, revisionId, name, modelNumber, version, valid, contents);
    case Revise(id, base, revisionId, name, modelNumber, version, valid, contents) =>
      ReviseModelKeeps(db, id, base, revisionId, name, modelNumber, version, valid, contents);
    case RetireModel(id) =>
      if Outcome(db, step).Ok? {
        ArchiveModelKeeps(db, id);
      }
  }

  /** In every interleaving of catalog operations the invariant holds, and histories only ever grow at the end. */
  lemma {:induction false} RunKeepsInvariant(db: Db, steps: seq<Step>)
    requires Invariant(db)
    ensures Invariant(Run(db, steps))
    ensures db.revisions <= Run(db, steps).revisions && db.versions <= Run(db, steps).versions
    decreases |steps|
  {
    if steps != [] {
      StepKeepsInvariant(db, steps[0]);
      StepAppends(db, steps[0]);
      hide After, Invariant;
      RunKeepsInvariant(After(db, steps[0]), steps[1..]);
    }
  }

  lemma StepAppends(db: Db, step: Step)
    ensures db.revisions <= After(db, step).revisions && db.versions <= After(db, step).versions
  {
  }

  const EMPTY := Db(map[], map[], [], map[], [])

  lemma EmptyCatalogHolds()
    ensures Invariant(EMPTY)
  {
  }

  lemma InvariantGivesAChain(db: Db, model: Id)
    requires RevisionsHold(db.models, db.revisions)
    ensures var history := History(db.revisions, model);
            && Chain(history) && (model in db.models <==> history != [])
            && Latest(db.revisions, model) == if history == [] then None else Some(history[|history| - 1])
  {
    HistoryIsAChain(db.revisions, model);
    hide Chain, Numbered, Chained, DistinctIds;
    if model !in db.models {
      NoRowsNoLength(db.revisions, model);
    }
  }

  /** The revisions of every model in a reachable catalog are numbered from one, each the child of the one before, and
      the current revision is the last of them. */
  lemma ReachableRevisionsFormAChain(steps: seq<Step>, model: Id)
    ensures var db := Run(EMPTY, steps);
            var history := History(db.revisions, model);
            && Chain(history) && (model in db.models <==> history != [])
            && Latest(db.revisions, model) == if history == [] then None else Some(history[|history| - 1])
  {
    hide Run, History, Latest, Chain;
    EmptyCatalogHolds();
    RunKeepsInvariant(EMPTY, steps);
    InvariantGivesAChain(Run(EMPTY, steps), model);
  }

  // ---- Optimistic concurrency ----

  // The base is an earlier revision of the model than the current one.
  ghost predicate Superseded(revisions: seq<Entry<Revision>>, model: Id, base: Id) {
    && Latest(revisions, model).Some?
    && exists row :: row in revisions && row.of == model && row.id == base
                     && row.number < Latest(revisions, model).value.number
  }

  lemma SupersededStays(revisions: seq<Entry<Revision>>, later: seq<Entry<Revision>>, model: Id, base: Id)
    requires Numbered(revisions) && Numbered(later) && DistinctIds(later) && revisions <= later
    requires Superseded(revisions, model, base)
    ensures Superseded(later, model, base) && Latest(later, model).value.id != base
  {
    var row :| row in revisions && row.of == model && row.id == base
               && row.number < Latest(revisions, model).value.number;
    LatestIsTheLength(revisions, model);
    LatestIsTheLength(later, model);
    assert row in later && Latest(revisions, model).value in later;
    var i :| 0 <= i < |later| && later[i] == row;
    var j :| 0 <= j < |later| && later[j] == Latest(later, model).value;
    assert i != j;
    assert later[i].id != later[j].id;
  }

  lemma RevisingSupersedes(db: Db, step: Step)
    requires Invariant(db) && step.Revise? && Outcome(db, step).Ok?
    ensures Superseded(After(db, step).revisions, step.id, step.base)
  {
    var after := After(db, step).revisions;
    LatestIsTheLength(db.revisions, step.id);
    var current := Latest(db.revisions, step.id).value;
    assert after[..|db.revisions|] == db.revisions;
    assert current in after;
  }

  /** Of any number of revisions made from one base, in whatever order and with whatever between them, at most one
      succeeds: every later one is refused. */
  lemma OneReviserPerBase(db: Db, first: Step, between: seq<Step>, second: Step)
    requires Invariant(db) && first.Revise? && second.Revise? && first.id == second.id && first.base == second.base
    requires Outcome(db, first).Ok?
    ensures Outcome(Run(After(db, first), between), second) == Err(Stale)
  {
    StepKeepsInvariant(db, first);
    RunKeepsInvariant(After(db, first), between);
    RevisingSupersedes(db, first);
    hide After, Numbered, Chained, DistinctIds, RevisionsApply, VersionsHold;
    var later := Run(After(db, first), between);
    SupersededStays(After(db, first).revisions, later.revisions, first.id, first.base);
    var row :| row in later.revisions && row.of == first.id && row.id == first.base;
  }
}
