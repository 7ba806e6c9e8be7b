/** One row of an asset CSV file: its cells, what they parse to, and the asset state they are compared with. */
module AssetRows {
  import opened Wrappers
  import opened Text

  // The asset fields a row may set. The first ten belong to hardware, the last four to software.
  datatype Field =
    | SerialNumber | AssetTag | LifecycleState | AcquiredOn | AcquisitionMethod | AcquisitionReference
    | WarrantyProvider | WarrantyStartsOn | WarrantyEndsOn | WarrantyReference
    | Status | InstalledVersion | InstalledOn | LastVerifiedOn

  datatype Kind = Hardware | Software

  type Date = Option<int>

  datatype Details =
    | HardwareDetails(serial: string, tag: string, state: string, acquiredOn: Date, acquisitionMethod: string,
                      acquisitionReference: string, warrantyProvider: string, warrantyStartsOn: Date,
                      warrantyEndsOn: Date, warrantyReference: string)
    | SoftwareDetails(status: string, version: string, installedOn: Date, verifiedOn: Date)
  {
    function Kind(): Kind {
      if HardwareDetails? then Hardware else Software
    }
  }

  // The decoded cells of a row, by column.
  datatype Cells = Cells(schemaVersion: string, importKey: string, assetId: string, name: string, kind: string,
                         modelId: string, field: Field -> string)

  type Id = nat

  // What the rows are read with: the CSV reader, the UUID and date parsers and the identifier normaliser.
  datatype Library<!Content> = Library(
    read: Content -> Option<seq<Cells>>,
    uuid: string -> Option<Id>,
    derivedId: (Id, string) -> Id,
    date: string -> Option<int>,
    normal: string -> string)

  datatype RowError =
    | BadSchema | BadId | BadImportKey | BadName | BadKind | BadModel | MixedFields
    | BadState | BadMethod | BadDate | BadLength | BadWarranty | BadStatus | MissingInstallDate
    | DuplicateTarget | UnknownAsset | ProvenanceChange | ModelUnavailable | SupplierInactive | KindMismatch
    | SerialRepeated | SerialTaken | TagRepeated | TagTaken | UninstalledSoftware

  datatype Row = Row(id: Id, supplied: bool, name: string, model: Id, details: Details)
  {
    function Kind(): Kind {
      details.Kind()
    }
  }

  // ---- What the stored details must satisfy ----

  const STATES := ["in_stock", "in_service", "repair", "retired", "disposed"]
  const METHODS := ["", "purchase", "lease", "rental", "transfer", "donation", "other"]
  const STATUSES := ["planned", "installed", "suspended", "uninstalled"]

  predicate WithinLimits(details: Details)
    requires details.HardwareDetails?
  {
    && |details.serial| <= 160 && |details.tag| <= 120 && |details.acquisitionReference| <= 240
    && |details.warrantyProvider| <= 160 && |details.warrantyReference| <= 240
  }

  predicate WarrantyInOrder(details: Details)
    requires details.HardwareDetails?
  {
    var starts, ends := details.warrantyStartsOn, details.warrantyEndsOn;
    starts.Some? && ends.Some? ==> starts.value <= ends.value
  }

  // The field checks of the two profile models.
  predicate DetailsValid(details: Details) {
    match details.Kind()
    case Hardware =>
      && details.state in STATES && details.acquisitionMethod in METHODS
      && WithinLimits(details) && WarrantyInOrder(details)
    case Software =>
      && details.status in STATUSES && |details.version| <= 160
      && (details.status == "installed" ==> details.installedOn.Some?)
  }

  function DefaultDetails(kind: Kind): Details {
    match kind
    case Hardware => HardwareDetails("", "", "in_stock", None, "", "", "", None, None, "")
    case Software => SoftwareDetails("planned", "", None, None)
  }

  // ---- Changing some fields only ----

  datatype Value = Absent | Text(text: string) | Day(date: Date)

  function ValueOf(details: Details, f: Field): Value {
    match details
    case HardwareDetails(serial, tag, state, acquired, how, reference, provider, starts, ends, warranty) =>
      (match f
       case SerialNumber => Text(serial)
       case AssetTag => Text(tag)
       case LifecycleState => Text(state)
       case AcquiredOn => Day(acquired)
       case AcquisitionMethod => Text(how)
       case AcquisitionReference => Text(reference)
       case WarrantyProvider => Text(provider)
       case WarrantyStartsOn => Day(starts)
       case WarrantyEndsOn => Day(ends)
       case WarrantyReference => Text(warranty)
       case _ => Absent)
    case SoftwareDetails(status, version, installed, verified) =>
      (match f
       case Status => Text(status)
       case InstalledVersion => Text(version)
       case InstalledOn => Day(installed)
       case LastVerifiedOn => Day(verified)
       case _ => Absent)
  }

  // The fields in which two records of one kind differ.
  function Changed(current: Details, requested: Details): set<Field>
    requires current.Kind() == requested.Kind()
  {
    set f: Field | ValueOf(current, f) != ValueOf(requested, f)
  }

  // `current` with the named fields taken from `values`.
  function Overlay(current: Details, values: Details, fields: set<Field>): (details: Details)
    requires current.Kind() == values.Kind()
    ensures details.Kind() == current.Kind()
  {
    if current.HardwareDetails? then
      HardwareDetails(
        if SerialNumber in fields then values.serial else current.serial,
        if AssetTag in fields then values.tag else current.tag,
        if LifecycleState in fields then values.state else current.state,
        if AcquiredOn in fields then values.acquiredOn else current.acquiredOn,
        if AcquisitionMethod in fields then values.acquisitionMethod else current.acquisitionMethod,
        if AcquisitionReference in fields then values.acquisitionReference else current.acquisitionReference,
        if WarrantyProvider in fields then values.warrantyProvider else current.warrantyProvider,
        if WarrantyStartsOn in fields then values.warrantyStartsOn else current.warrantyStartsOn,
        if WarrantyEndsOn in fields then values.warrantyEndsOn else current.warrantyEndsOn,
        if WarrantyReference in fields then values.warrantyReference else current.warrantyReference)
    else
      SoftwareDetails(
        if Status in fields then values.status else current.status,
        if InstalledVersion in fields then values.version else current.version,
        if InstalledOn in fields then values.installedOn else current.installedOn,
        if LastVerifiedOn in fields then values.verifiedOn else current.verifiedOn)
  }

  /** Saving some fields changes those alone. */
  lemma OverlaidField(current: Details, requested: Details, fields: set<Field>, f: Field)
    requires current.Kind() == requested.Kind()
    ensures ValueOf(Overlay(current, requested, fields), f)
         == if f in fields then ValueOf(requested, f) else ValueOf(current, f)
  {
    if current.HardwareDetails? {
    } else {
    }
  }

  lemma SameValuesAreEqual(a: Details, b: Details)
    requires a.Kind() == b.Kind() && forall f: Field :: ValueOf(a, f) == ValueOf(b, f)
    ensures a == b
  {
    if a.HardwareDetails? {
      assert ValueOf(a, SerialNumber) == ValueOf(b, SerialNumber) && ValueOf(a, AssetTag) == ValueOf(b, AssetTag);
      assert ValueOf(a, LifecycleState) == ValueOf(b, LifecycleState) && ValueOf(a, AcquiredOn) == ValueOf(b, AcquiredOn);
      assert ValueOf(a, AcquisitionMethod) == ValueOf(b, AcquisitionMethod);
      assert ValueOf(a, AcquisitionReference) == ValueOf(b, AcquisitionReference);
      assert ValueOf(a, WarrantyProvider) == ValueOf(b, WarrantyProvider);
      assert ValueOf(a, WarrantyStartsOn) == ValueOf(b, WarrantyStartsOn);
      assert ValueOf(a, WarrantyEndsOn) == ValueOf(b, WarrantyEndsOn);
      assert ValueOf(a, WarrantyReference) == ValueOf(b, WarrantyReference);
    } else {
      assert ValueOf(a, Status) == ValueOf(b, Status) && ValueOf(a, InstalledVersion) == ValueOf(b, InstalledVersion);
      assert ValueOf(a, InstalledOn) == ValueOf(b, InstalledOn) && ValueOf(a, LastVerifiedOn) == ValueOf(b, LastVerifiedOn);
    }
  }

  lemma OverlayOfChangesIsRequested(current: Details, requested: Details)
    requires current.Kind() == requested.Kind()
    ensures Overlay(current, requested, Changed(current, requested)) == requested
    ensures Changed(current, requested) == {} <==> current == requested
  {
    hide Overlay, ValueOf;
    var changed := Changed(current, requested);
    forall f: Field ensures ValueOf(Overlay(current, requested, changed), f) == ValueOf(requested, f) {
      OverlaidField(current, requested, changed, f);
    }
    SameValuesAreEqual(Overlay(current, requested, changed), requested);
    if changed == {} {
      forall f: Field ensures ValueOf(current, f) == ValueOf(requested, f) {
        assert f !in changed;
      }
      SameValuesAreEqual(current, requested);
    }
  }

  // ---- Parsing ----

  function ParseDate<C>(lib: Library<C>, cell: string): Result<Date, RowError> {
    if cell == "" then Ok(None)
    else if lib.date(cell).None? then Err(BadDate)
    else Ok(lib.date(cell))
  }

  function Cell(cells: Cells, f: Field): string {
    Strip(cells.field(f))
  }

  function ParseHardware<C>(lib: Library<C>, cells: Cells): Result<Details, RowError> {
    var state := if Cell(cells, LifecycleState) == "" then "in_stock" else Cell(cells, LifecycleState);
    if state !in STATES || state == "disposed" then Err(BadState)
    else if Cell(cells, AcquisitionMethod) !in METHODS then Err(BadMethod)
    else
      var acquired := ParseDate(lib, Cell(cells, AcquiredOn));
      var starts := ParseDate(lib, Cell(cells, WarrantyStartsOn));
      var ends := ParseDate(lib, Cell(cells, WarrantyEndsOn));
      if acquired.Err? || starts.Err? || ends.Err? then Err(BadDate)
      else
        var details := HardwareDetails(
          lib.normal(cells.field(SerialNumber)), lib.normal(cells.field(AssetTag)), state, acquired.value,
          Cell(cells, AcquisitionMethod), Cell(cells, AcquisitionReference), Cell(cells, WarrantyProvider),
          starts.value, ends.value, Cell(cells, WarrantyReference));
        if !WithinLimits(details) then Err(BadLength)
        else if !WarrantyInOrder(details) then Err(BadWarranty)
        else Ok(details)
  }

  function ParseSoftware<C>(lib: Library<C>, cells: Cells): Result<Details, RowError> {
    var status := if Cell(cells, Status) == "" then "planned" else Cell(cells, Status);
    if status !in STATUSES then Err(BadStatus)
    else
      var installed, verified := ParseDate(lib, Cell(cells, InstalledOn)), ParseDate(lib, Cell(cells, LastVerifiedOn));
      if installed.Err? || verified.Err? then Err(BadDate)
      else if |Cell(cells, InstalledVersion)| > 160 then Err(BadLength)
      else if status == "installed" && installed.value.None? then Err(MissingInstallDate)
      else Ok(SoftwareDetails(status, Cell(cells, InstalledVersion), installed.value, verified.value))
  }

  function ParseId<C>(lib: Library<C>, workspace: Id, cells: Cells): Result<Id, RowError> {
    var key, given := Strip(cells.importKey), Strip(cells.assetId);
    if given != "" then
      if lib.uuid(given).None? then Err(BadId) else Ok(lib.uuid(given).value)
    else if key == "" || |key| > 240 then Err(BadImportKey)
    else Ok(lib.derivedId(workspace, key))
  }

  predicate NoHardwareCells(cells: Cells) {
    forall f | f in {SerialNumber, AssetTag, LifecycleState, AcquiredOn, AcquisitionMethod, AcquisitionReference,
                     WarrantyProvider, WarrantyStartsOn, WarrantyEndsOn, WarrantyReference} :: Cell(cells, f) == ""
  }

  predicate NoSoftwareCells(cells: Cells) {
    forall f | f in {Status, InstalledVersion, InstalledOn, LastVerifiedOn} :: Cell(cells, f) == ""
  }

  function ParseDetails<C>(lib: Library<C>, kind: string, cells: Cells): Result<Details, RowError> {
    if kind == "hardware" then
      if NoSoftwareCells(cells) then ParseHardware(lib, cells) else Err(MixedFields)
    else
      if NoHardwareCells(cells) then ParseSoftware(lib, cells) else Err(MixedFields)
  }

  function ParseRow<C>(lib: Library<C>, workspace: Id, cells: Cells): Result<Row, RowError> {
    if cells.schemaVersion != "tekdocs.assets.v1" then Err(BadSchema)
    else
      var id := ParseId(lib, workspace, cells);
      if id.Err? then Err(id.error)
      else
        var name, kind := Strip(cells.name), Strip(cells.kind);
        if name == "" || |name| > 240 then Err(BadName)
        else if kind !in ["hardware", "software"] then Err(BadKind)
        else
          var model := lib.uuid(Strip(cells.modelId));
          if model.None? then Err(BadModel)
          else
            var details := ParseDetails(lib, kind, cells);
            if details.Err? then Err(details.error)
            else Ok(Row(id.value, Strip(cells.assetId) != "", name, model.value, details.value))
  }

  // Normalising a normal form changes nothing.
  ghost predicate Normalises<C>(lib: Library<C>) {
    forall s :: lib.normal(lib.normal(s)) == lib.normal(s)
  }

  // What saving a profile turns the given values into.
  function Saved<C>(lib: Library<C>, values: Details): (saved: Details)
    ensures saved.Kind() == values.Kind()
  {
    match values.Kind()
    case Hardware => values.(serial := lib.normal(values.serial), tag := lib.normal(values.tag))
    case Software => values.(status := Strip(values.status), version := Strip(values.version))
  }

  // Details a row can carry: valid, in the form they are stored in, and never disposing of anything.
  predicate Importable<C>(lib: Library<C>, details: Details) {
    && DetailsValid(details) && Saved(lib, details) == details
    && (details.HardwareDetails? ==> details.state != "disposed")
  }

  lemma ParsedSoftwareIsImportable<C>(lib: Library<C>, cells: Cells)
    requires ParseSoftware(lib, cells).Ok?
    ensures Importable(lib, ParseSoftware(lib, cells).value)
  {
    hide Strip;
    StripTwice(cells.field(InstalledVersion));
    StripTwice(cells.field(Status));
    PlannedIsStripped();
  }

  lemma PlannedIsStripped()
    ensures Strip("planned") == "planned"
  {
    assert LeftStrip("planned") == "planned" && RightStrip("planned") == "planned";
  }

  /** A parsed row's details are valid and already in the form they are stored in. */
  lemma ParsedRowIsImportable<C>(lib: Library<C>, workspace: Id, cells: Cells)
    requires Normalises(lib) && ParseRow(lib, workspace, cells).Ok?
    ensures Importable(lib, ParseRow(lib, workspace, cells).value.details)
  {
    hide Strip;
    if Strip(cells.kind) != "hardware" {
      ParsedSoftwareIsImportable(lib, cells);
    }
  }

  // The limits of stored details, and of those a row may ask for.
  predicate WithinBounds(details: Details) {
    match details
    case HardwareDetails(serial, tag, state, _, how, reference, provider, starts, ends, warranty) =>
      && state in {"in_stock", "in_service", "repair", "retired", "disposed"}
      && how in {"", "purchase", "lease", "rental", "transfer", "donation", "other"}
      && |serial| <= 160 && |tag| <= 120 && |reference| <= 240 && |provider| <= 160 && |warranty| <= 240
      && (starts.Some? && ends.Some? ==> starts.value <= ends.value)
    case SoftwareDetails(status, version, installed, _) =>
      && status in {"planned", "installed", "suspended", "uninstalled"}
      && |version| <= 160 && (status == "installed" ==> installed.Some?)
  }

  lemma ValidExactly(details: Details)
    ensures DetailsValid(details) <==> WithinBounds(details)
  {
  }

  predicate DateReadable<C>(lib: Library<C>, cells: Cells, f: Field) {
    Strip(cells.field(f)) == "" || lib.date(Strip(cells.field(f))).Some?
  }

  // The details a row asks for, its dates being readable.
  function Asked<C>(lib: Library<C>, cells: Cells): Details {
    var text, date := (f: Field) => Strip(cells.field(f)), (f: Field) => if Strip(cells.field(f)) == "" then None
                                                                          else lib.date(Strip(cells.field(f)));
    if Strip(cells.kind) == "hardware" then
      HardwareDetails(
        lib.normal(cells.field(SerialNumber)), lib.normal(cells.field(AssetTag)),
        if text(LifecycleState) == "" then "in_stock" else text(LifecycleState), date(AcquiredOn),
        text(AcquisitionMethod), text(AcquisitionReference), text(WarrantyProvider), date(WarrantyStartsOn),
        date(WarrantyEndsOn), text(WarrantyReference))
    else
      SoftwareDetails(if text(Status) == "" then "planned" else text(Status), text(InstalledVersion), date(InstalledOn),
                      date(LastVerifiedOn))
  }

  lemma HardwareAccepted<C>(lib: Library<C>, cells: Cells)
    requires Strip(cells.kind) == "hardware"
    ensures ParseHardware(lib, cells).Ok?
       <==> && DateReadable(lib, cells, AcquiredOn) && DateReadable(lib, cells, WarrantyStartsOn)
            && DateReadable(lib, cells, WarrantyEndsOn)
            && WithinBounds(Asked(lib, cells)) && Asked(lib, cells).state != "disposed"
    ensures ParseHardware(lib, cells).Ok? ==> ParseHardware(lib, cells).value == Asked(lib, cells)
  {
    hide Strip;
  }

  lemma SoftwareAccepted<C>(lib: Library<C>, cells: Cells)
    requires Strip(cells.kind) != "hardware"
    ensures ParseSoftware(lib, cells).Ok?
       <==> && DateReadable(lib, cells, InstalledOn) && DateReadable(lib, cells, LastVerifiedOn)
            && WithinBounds(Asked(lib, cells))
    ensures ParseSoftware(lib, cells).Ok? ==> ParseSoftware(lib, cells).value == Asked(lib, cells)
  {
    hide Strip;
  }

  // The identifier is given and readable, or can be derived from an import key.
  predicate Identified<C>(lib: Library<C>, cells: Cells) {
    if Strip(cells.assetId) != "" then lib.uuid(Strip(cells.assetId)).Some? else 1 <= |Strip(cells.importKey)| <= 240
  }

  /** A row is read exactly when it has the one schema version, an identifier, a name of 1 to 240 characters, a kind and a
      readable model, nothing in the columns of the other kind, readable dates, and details within the limits that do not
      dispose of anything. It then says what its columns say: each detail from its own column, identifiers normalised and
      other texts stripped, an empty state read as the starting one, and the target given or derived from the import key. */
  lemma RowsParseExactly<C>(lib: Library<C>, workspace: Id, cells: Cells)
    ensures ParseRow(lib, workspace, cells).Ok?
       <==> && cells.schemaVersion == "tekdocs.assets.v1" && Identified(lib, cells)
            && 1 <= |Strip(cells.name)| <= 240 && Strip(cells.kind) in {"hardware", "software"}
            && lib.uuid(Strip(cells.modelId)).Some?
            && (forall f | ValueOf(Asked(lib, cells), f) == Absent :: Strip(cells.field(f)) == "")
            && (forall f | ValueOf(Asked(lib, cells), f).Day? :: DateReadable(lib, cells, f))
            && WithinBounds(Asked(lib, cells))
            && (Asked(lib, cells).HardwareDetails? ==> Asked(lib, cells).state != "disposed")
    ensures ParseRow(lib, workspace, cells).Ok? ==>
              ParseRow(lib, workspace, cells).value
              == Row(if Strip(cells.assetId) != "" then lib.uuid(Strip(cells.assetId)).value
                     else lib.derivedId(workspace, Strip(cells.importKey)),
                     Strip(cells.assetId) != "", Strip(cells.name), lib.uuid(Strip(cells.modelId)).value,
                     Asked(lib, cells))
  {
    hide Strip, ParseHardware, ParseSoftware, WithinBounds, DateReadable, ValueOf;
    ColumnsOfKind(lib, cells, Asked(lib, cells));
    if Strip(cells.kind) == "hardware" {
      HardwareAccepted(lib, cells);
    } else {
      SoftwareAccepted(lib, cells);
    }
  }

  lemma ColumnsOfKind<C>(lib: Library<C>, cells: Cells, details: Details)
    ensures (forall f | ValueOf(details, f) == Absent :: Strip(cells.field(f)) == "")
       <==> if details.HardwareDetails? then NoSoftwareCells(cells) else NoHardwareCells(cells)
    ensures (forall f | ValueOf(details, f).Day? :: DateReadable(lib, cells, f))
       <==> if details.HardwareDetails? then DateReadable(lib, cells, AcquiredOn)
                                             && DateReadable(lib, cells, WarrantyStartsOn)
                                             && DateReadable(lib, cells, WarrantyEndsOn)
            else DateReadable(lib, cells, InstalledOn) && DateReadable(lib, cells, LastVerifiedOn)
  {
    hide Strip, DateReadable;
    if forall f | ValueOf(details, f) == Absent :: Strip(cells.field(f)) == "" {
      forall f | ValueOf(details, f) == Absent ensures Cell(cells, f) == "" {
      }
    }
    forall f ensures Cell(cells, f) == Strip(cells.field(f)) {
    }
  }
}
