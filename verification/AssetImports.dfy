/** Applying an asset CSV file: the signed plan is recomputed, then executed row by row in one transaction. */
module AssetImports {
  import opened Wrappers
  import opened AssetRows
  import opened AssetPlans

  datatype ApplyError =
    | BadToken | Unreadable | NoLongerValid | PlanChanged
    | ModelGone | SupplierGone | NoRevision | IdInUse | DocumentsUnverified | WrongProfile
    | DisposedHardware | UninstalledEdit | InvalidProfile | IdentifierNotUnique

  datatype Counts = Counts(created: nat, updated: nat, skipped: nat)

  datatype Imported = Imported(db: Inventory, counts: Counts)

  // ---- The writers ----

  // Creates an asset with its profile at its defaults.
  function CreateAsset(db: Inventory, row: Row): Result<Inventory, ApplyError> {
    if row.model !in db.models || !db.models[row.model].available then Err(ModelGone)
    else
      var model := db.models[row.model];
      if !model.supplierActive then Err(SupplierGone)
      else if !model.hasRevision then Err(NoRevision)
      else if row.id in db.entities then Err(IdInUse)
      else if !model.documentsVerify then Err(DocumentsUnverified)
      else
        var asset := Asset(row.name, row.model, DefaultDetails(model.kind), false);
        Ok(db.(assets := db.assets[row.id := asset], entities := db.entities + {row.id}))
  }

  predicate IdentifiersFree(db: Inventory, id: Id, details: Details) {
    details.HardwareDetails? ==>
      && (details.serial != "" ==> !SerialUsedElsewhere(db, id, details.serial))
      && (details.tag != "" ==> !TagUsedElsewhere(db, id, details.tag))
  }

  // Saves the named fields of a profile, checking the whole profile and the unique identifiers.
  function SaveDetails<C>(lib: Library<C>, db: Inventory, id: Id, values: Details, fields: set<Field>)
    : Result<Inventory, ApplyError>
    requires id in db.assets
  {
    var asset := db.assets[id];
    if asset.details.Kind() != values.Kind() then Err(WrongProfile)
    else if asset.details.HardwareDetails? && asset.details.state == "disposed" then Err(DisposedHardware)
    else if asset.details.SoftwareDetails? && asset.details.status == "uninstalled" then Err(UninstalledEdit)
    else
      var details := Overlay(asset.details, Saved(lib, values), fields);
      if !DetailsValid(details) then Err(InvalidProfile)
      else if !IdentifiersFree(db, id, details) then Err(IdentifierNotUnique)
      else Ok(db.(assets := db.assets[id := asset.(details := details)]))
  }

  // ---- One row ----

  // The values after which a creation writes no details at all.
  predicate LooksDefault(details: Details) {
    match details.Kind()
    case Hardware =>
      && (forall s | s in [details.serial, details.tag, details.state, details.acquisitionMethod,
                           details.acquisitionReference, details.warrantyProvider, details.warrantyReference] ::
            s in ["", "in_stock"])
      && details.acquiredOn.None? && details.warrantyStartsOn.None? && details.warrantyEndsOn.None?
    case Software =>
      && details.status in ["", "planned"] && details.version in ["", "planned"]
      && details.installedOn.None? && details.verifiedOn.None?
  }

  const ALL_FIELDS: set<Field> := set f: Field | true

  function ExecuteRow<C>(lib: Library<C>, db: Inventory, row: Row): Result<(Inventory, Action), ApplyError> {
    if !Visible(db, row.id) then
      var created := CreateAsset(db, row);
      if created.Err? then Err(created.error)
      else if LooksDefault(row.details) then Ok((created.value, Create))
      else
        var saved := SaveDetails(lib, created.value, row.id, row.details, ALL_FIELDS);
        if saved.Err? then Err(saved.error) else Ok((saved.value, Create))
    else
      var asset := db.assets[row.id];
      if asset.details.Kind() != row.Kind() then Err(WrongProfile)
      else
        var changes := Changed(asset.details, row.details);
        if asset.name == row.name && changes == {} then Ok((db, Skip))
        else
          var renamed := db.(assets := db.assets[row.id := asset.(name := row.name)]);
          if changes == {} then Ok((renamed, Update))
          else
            var saved := SaveDetails(lib, renamed, row.id, row.details, changes);
            if saved.Err? then Err(saved.error) else Ok((saved.value, Update))
  }

  function Counted(counts: Counts, action: Action): Counts {
    match action
    case Create => counts.(created := counts.created + 1)
    case Update => counts.(updated := counts.updated + 1)
    case Skip => counts.(skipped := counts.skipped + 1)
  }

  function Execute<C>(lib: Library<C>, db: Inventory, rows: seq<Row>): Result<Imported, ApplyError> {
    if rows == [] then Ok(Imported(db, Counts(0, 0, 0)))
    else
      var before := Execute(lib, db, rows[..|rows| - 1]);
      if before.Err? then before
      else
        var done := ExecuteRow(lib, before.value.db, rows[|rows| - 1]);
        if done.Err? then Err(done.error)
        else Ok(Imported(done.value.0, Counted(before.value.counts, done.value.1)))
  }

  // ---- The whole file ----

  // The digests a preview token carries, and a signed token read back.
  datatype Digests<!Content, !Digest> = Digests(source: Content -> Digest, plans: seq<Plan> -> Digest)

  datatype Token<Digest> = Token(workspace: Id, source: Digest, plans: Digest)

  function Values(rows: seq<Result<Row, RowError>>): (values: seq<Row>)
    requires forall i | 0 <= i < |rows| :: rows[i].Ok?
    ensures |values| == |rows|
  {
    seq(|rows|, i requires 0 <= i < |rows| => rows[i].value)
  }

  // The token a preview hands out, if it found no errors.
  function TokenOf<C, D>(digests: Digests<C, D>, workspace: Id, content: C, report: Report): Option<Token<D>> {
    if report.errors != [] then None
    else Some(Token(workspace, digests.source(content), digests.plans(report.plans)))
  }

  // What a file does to a workspace, given the token read back from its signature.
  function Apply<C, D(==)>(lib: Library<C>, digests: Digests<C, D>, workspace: Id, db: Inventory, content: C,
                           signed: Option<Token<D>>): Result<Imported, ApplyError>
  {
    if signed.None? then Err(BadToken)
    else if lib.read(content).None? then Err(Unreadable)
    else
      var rows := ParseRows(lib, workspace, lib.read(content).value);
      var report := Review(db, rows);
      if report.errors != [] then Err(NoLongerValid)
      else if TokenOf(digests, workspace, content, report) != signed then Err(PlanChanged)
      else
        ReviewDecides(db, rows);
        Execute(lib, db, Values(rows))
  }
}
