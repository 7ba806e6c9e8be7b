/** Exporting assets as CSV rows, and what previewing the export again finds. */
module AssetExport {
  import opened Wrappers
  import opened Text
  import opened SpreadsheetCells
  import opened AssetRows
  import opened AssetPlans
  import opened AssetImportProofs

  // How identifiers and dates are printed.
  datatype Printers = Printers(id: Id -> string, date: int -> string)

  // Text that neither stripping nor escaping changes.
  predicate Plain(s: string) {
    s != "" && Strip(s) == s && Decode(Safe(s)) == s
  }

  predicate IdReadsBack<C>(lib: Library<C>, printers: Printers, id: Id) {
    lib.uuid(printers.id(id)) == Some(id) && Plain(printers.id(id))
  }

  predicate DayReadsBack<C>(lib: Library<C>, printers: Printers, day: int) {
    lib.date(printers.date(day)) == Some(day) && Plain(printers.date(day))
  }

  ghost predicate ReadsBack<C>(lib: Library<C>, printers: Printers) {
    && (forall id: Id :: IdReadsBack(lib, printers, id))
    && (forall day: int :: DayReadsBack(lib, printers, day))
  }

  function DateText(printers: Printers, date: Date): string {
    if date.None? then "" else printers.date(date.value)
  }

  // A field's text; the fields of the other kind are empty.
  function FieldText(printers: Printers, details: Details, f: Field): string {
    if details.HardwareDetails? then
      match f
      case SerialNumber => details.serial
      case AssetTag => details.tag
      case LifecycleState => details.state
      case AcquiredOn => DateText(printers, details.acquiredOn)
      case AcquisitionMethod => details.acquisitionMethod
      case AcquisitionReference => details.acquisitionReference
      case WarrantyProvider => details.warrantyProvider
      case WarrantyStartsOn => DateText(printers, details.warrantyStartsOn)
      case WarrantyEndsOn => DateText(printers, details.warrantyEndsOn)
      case WarrantyReference => details.warrantyReference
      case _ => ""
    else
      match f
      case Status => details.status
      case InstalledVersion => details.version
      case InstalledOn => DateText(printers, details.installedOn)
      case LastVerifiedOn => DateText(printers, details.verifiedOn)
      case _ => ""
  }

  function ExportRow(printers: Printers, id: Id, asset: Asset): Cells {
    Cells("tekdocs.assets.v1", Safe(""), Safe(printers.id(id)), Safe(asset.name),
          if asset.details.HardwareDetails? then "hardware" else "software", Safe(printers.id(asset.model)),
          f => Safe(FieldText(printers, asset.details, f)))
  }

  // The cells as the import reads them.
  function DecodeCells(cells: Cells): Cells {
    Cells(cells.schemaVersion, Decode(cells.importKey), Decode(cells.assetId), Decode(cells.name), cells.kind,
          Decode(cells.modelId), f => Decode(cells.field(f)))
  }

  // What the program stores: valid details in stored form, and stripped text.
  predicate Stored<C>(lib: Library<C>, asset: Asset) {
    && Strip(asset.name) == asset.name && 1 <= |asset.name| <= 240
    && DetailsValid(asset.details) && Saved(lib, asset.details) == asset.details
    && (asset.details.HardwareDetails? ==>
          && Strip(asset.details.acquisitionReference) == asset.details.acquisitionReference
          && Strip(asset.details.warrantyProvider) == asset.details.warrantyProvider
          && Strip(asset.details.warrantyReference) == asset.details.warrantyReference)
  }

  // An identifier is normalised again when it is read, so one that is an apostrophe and a formula survives only if the
  // normaliser puts the apostrophe back.
  predicate IdentifierSurvives<C>(lib: Library<C>, s: string) {
    QuotedFormula(s) ==> lib.normal(s[1..]) == s
  }

  // No text of the details is an apostrophe and a formula.
  predicate DetailsSurvive<C>(lib: Library<C>, details: Details) {
    match details.Kind()
    case Hardware =>
      && IdentifierSurvives(lib, details.serial) && IdentifierSurvives(lib, details.tag)
      && !QuotedFormula(details.acquisitionReference) && !QuotedFormula(details.warrantyProvider)
      && !QuotedFormula(details.warrantyReference)
    case Software => !QuotedFormula(details.version)
  }

  predicate TextsSurvive<C>(lib: Library<C>, asset: Asset) {
    !QuotedFormula(asset.name) && DetailsSurvive(lib, asset.details)
  }

  predicate Disposed(asset: Asset) {
    asset.details.HardwareDetails? && asset.details.state == "disposed"
  }

  function RowOf(id: Id, asset: Asset): Row {
    Row(id, true, asset.name, asset.model, asset.details)
  }

  // ---- One row ----

  lemma WordIsPlain(s: string)
    requires s != "" && 'a' <= s[0] <= 'z' && 'a' <= s[|s| - 1] <= 'z'
    ensures Plain(s) && Strip(s) == s && !QuotedFormula(s)
  {
  }

  lemma TextReadsBack(s: string)
    requires !QuotedFormula(s)
    ensures Decode(Safe(s)) == s
    ensures Strip(s) == s ==> Strip(Decode(Safe(s))) == s
  {
    DecodeUndoesSafeExactly(s);
  }

  lemma IdentifierReadsBack<C>(lib: Library<C>, s: string)
    requires lib.normal(s) == s
    ensures lib.normal(Decode(Safe(s))) == s <==> IdentifierSurvives(lib, s)
  {
    DecodeUndoesSafeExactly(s);
    if QuotedFormula(s) {
      QuotedIsShortened(s);
    }
  }

  lemma QuotedIsShortened(s: string)
    requires QuotedFormula(s)
    ensures Decode(Safe(s)) == s[1..] && Strip(Decode(Safe(s))) != s
  {
    assert LeftStrip(s) == s;
    StripShortens(s[1..]);
  }

  lemma EmptyReadsBack()
    ensures Strip(Decode(Safe(""))) == "" && !QuotedFormula("") && Strip("") == ""
  {
    assert LeftStrip("") == "" && RightStrip("") == "";
    assert !Dangerous("");
  }

  lemma DateReadsBack<C>(lib: Library<C>, printers: Printers, date: Date)
    requires ReadsBack(lib, printers)
    ensures ParseDate(lib, Strip(Decode(Safe(DateText(printers, date))))) == Ok(date)
  {
    hide Strip, Decode, Safe;
    EmptyReadsBack();
    if date.Some? {
      assert DayReadsBack(lib, printers, date.value);
    }
  }

  // Cells that hold a hardware record's fields, as the parser reads them.
  predicate HoldsHardware<C>(lib: Library<C>, cells: Cells, d: Details)
    requires d.HardwareDetails?
  {
    && lib.normal(cells.field(SerialNumber)) == d.serial && lib.normal(cells.field(AssetTag)) == d.tag
    && Cell(cells, LifecycleState) == d.state && Cell(cells, AcquisitionMethod) == d.acquisitionMethod
    && Cell(cells, AcquisitionReference) == d.acquisitionReference
    && Cell(cells, WarrantyProvider) == d.warrantyProvider && Cell(cells, WarrantyReference) == d.warrantyReference
    && ParseDate(lib, Cell(cells, AcquiredOn)) == Ok(d.acquiredOn)
    && ParseDate(lib, Cell(cells, WarrantyStartsOn)) == Ok(d.warrantyStartsOn)
    && ParseDate(lib, Cell(cells, WarrantyEndsOn)) == Ok(d.warrantyEndsOn)
  }

  lemma HardwareParses<C>(lib: Library<C>, cells: Cells, d: Details)
    requires d.HardwareDetails? && DetailsValid(d) && HoldsHardware(lib, cells, d)
    ensures ParseHardware(lib, cells) == if d.state == "disposed" then Err(BadState) else Ok(d)
  {
    hide ParseDate, Cell, WithinLimits, WarrantyInOrder;
    assert d.state != "";
  }

  lemma ExportHoldsHardware<C>(lib: Library<C>, printers: Printers, id: Id, asset: Asset)
    requires ReadsBack(lib, printers) && Stored(lib, asset) && DetailsSurvive(lib, asset.details) && asset.details.HardwareDetails?
    ensures HoldsHardware(lib, DecodeCells(ExportRow(printers, id, asset)), asset.details)
  {
    hide Strip, Decode, Safe, QuotedFormula, ParseDate, ReadsBack, WithinLimits, WarrantyInOrder;
    var d := asset.details;
    DateReadsBack(lib, printers, d.acquiredOn);
    DateReadsBack(lib, printers, d.warrantyStartsOn);
    DateReadsBack(lib, printers, d.warrantyEndsOn);
    KnownWordIsPlain(d.state);
    KnownWordIsPlain(d.acquisitionMethod);
    TextReadsBack(d.state);
    TextReadsBack(d.acquisitionMethod);
    IdentifierReadsBack(lib, d.serial);
    IdentifierReadsBack(lib, d.tag);
    TextReadsBack(d.acquisitionReference);
    TextReadsBack(d.warrantyProvider);
    TextReadsBack(d.warrantyReference);
  }

  lemma KnownWordIsPlain(s: string)
    requires s in STATES || s in STATUSES || s in METHODS
    ensures Strip(s) == s && !QuotedFormula(s) && (s in STATES || s in STATUSES ==> s != "")
  {
    if s == "" {
      EmptyReadsBack();
    } else {
      WordIsPlain(s);
    }
  }

  lemma SoftwareReadsBack<C>(lib: Library<C>, printers: Printers, id: Id, asset: Asset)
    requires ReadsBack(lib, printers) && Stored(lib, asset) && DetailsSurvive(lib, asset.details) && asset.details.SoftwareDetails?
    ensures ParseSoftware(lib, DecodeCells(ExportRow(printers, id, asset))) == Ok(asset.details)
  {
    hide Strip, Decode, Safe, QuotedFormula, ParseDate, ReadsBack;
    var d := asset.details;
    DateReadsBack(lib, printers, d.installedOn);
    DateReadsBack(lib, printers, d.verifiedOn);
    KnownWordIsPlain(d.status);
    TextReadsBack(d.status);
    TextReadsBack(d.version);
    assert d.status != "";
  }

  lemma OtherKindIsBlank(printers: Printers, id: Id, asset: Asset)
    ensures var cells := DecodeCells(ExportRow(printers, id, asset));
            if asset.details.HardwareDetails? then NoSoftwareCells(cells) else NoHardwareCells(cells)
  {
    hide Strip, Decode, Safe;
    EmptyReadsBack();
  }

  function KindWord(asset: Asset): string {
    if asset.details.HardwareDetails? then "hardware" else "software"
  }

  lemma DetailsReadBack<C>(lib: Library<C>, printers: Printers, id: Id, asset: Asset)
    requires ReadsBack(lib, printers) && Stored(lib, asset) && DetailsSurvive(lib, asset.details)
    ensures ParseDetails(lib, KindWord(asset), DecodeCells(ExportRow(printers, id, asset)))
         == if Disposed(asset) then Err(BadState) else Ok(asset.details)
  {
    hide ParseHardware, ParseSoftware, NoHardwareCells, NoSoftwareCells, HoldsHardware, DecodeCells, ExportRow,
         DetailsSurvive, ReadsBack;
    OtherKindIsBlank(printers, id, asset);
    if asset.details.HardwareDetails? {
      ExportHoldsHardware(lib, printers, id, asset);
      HardwareParses(lib, DecodeCells(ExportRow(printers, id, asset)), asset.details);
    } else {
      SoftwareReadsBack(lib, printers, id, asset);
    }
  }

  lemma HeaderParses<C>(lib: Library<C>, workspace: Id, cells: Cells, id: Id, model: Id)
    requires cells.schemaVersion == "tekdocs.assets.v1" && Strip(cells.kind) in ["hardware", "software"]
    requires Strip(cells.assetId) != "" && lib.uuid(Strip(cells.assetId)) == Some(id)
    requires lib.uuid(Strip(cells.modelId)) == Some(model)
    ensures ParseRow(lib, workspace, cells)
         == if Strip(cells.name) == "" || |Strip(cells.name)| > 240 then Err(BadName)
            else
              match ParseDetails(lib, Strip(cells.kind), cells)
              case Err(e) => Err(e)
              case Ok(details) => Ok(Row(id, true, Strip(cells.name), model, details))
  {
    hide Strip, ParseDetails;
  }

  // Everything of an exported row but its name and details is read back as it was.
  lemma HeaderReadsBack<C>(lib: Library<C>, workspace: Id, printers: Printers, id: Id, asset: Asset)
    requires ReadsBack(lib, printers)
    ensures var cells, name := DecodeCells(ExportRow(printers, id, asset)), Strip(Decode(Safe(asset.name)));
            ParseRow(lib, workspace, cells)
            == if name == "" || |name| > 240 then Err(BadName)
               else
                 match ParseDetails(lib, KindWord(asset), cells)
                 case Err(e) => Err(e)
                 case Ok(details) => Ok(Row(id, true, name, asset.model, details))
  {
    hide Strip, Decode, Safe, ParseDetails, ParseRow;
    var cells := DecodeCells(ExportRow(printers, id, asset));
    WordIsPlain("hardware");
    WordIsPlain("software");
    assert IdReadsBack(lib, printers, id) && IdReadsBack(lib, printers, asset.model);
    assert cells.kind == KindWord(asset) == Strip(cells.kind);
    HeaderParses(lib, workspace, cells, id, asset.model);
  }

  lemma ExportReadsBackIf<C>(lib: Library<C>, workspace: Id, printers: Printers, id: Id, asset: Asset)
    requires ReadsBack(lib, printers) && Stored(lib, asset) && TextsSurvive(lib, asset)
    ensures ParseRow(lib, workspace, DecodeCells(ExportRow(printers, id, asset)))
         == if Disposed(asset) then Err(BadState) else Ok(RowOf(id, asset))
  {
    hide Strip, Decode, Safe, QuotedFormula, ParseDetails, DetailsValid, Saved;
    TextReadsBack(asset.name);
    HeaderReadsBack(lib, workspace, printers, id, asset);
    DetailsReadBack(lib, printers, id, asset);
    hide ParseRow;
  }

  lemma ReadBackTextSurvives(s: string)
    requires Strip(Decode(Safe(s))) == s
    ensures !QuotedFormula(s)
  {
    if QuotedFormula(s) {
      QuotedIsShortened(s);
    }
  }

  lemma HardwareReadBackSurvives<C>(lib: Library<C>, printers: Printers, id: Id, asset: Asset)
    requires Stored(lib, asset) && asset.details.HardwareDetails?
    requires ParseHardware(lib, DecodeCells(ExportRow(printers, id, asset))) == Ok(asset.details)
    ensures DetailsSurvive(lib, asset.details) && !Disposed(asset)
  {
    hide Strip, Decode, Safe, QuotedFormula, ParseDate, WithinLimits, WarrantyInOrder;
    var d := asset.details;
    EmptyReadsBack();
    IdentifierReadsBack(lib, d.serial);
    IdentifierReadsBack(lib, d.tag);
    ReadBackTextSurvives(d.acquisitionReference);
    ReadBackTextSurvives(d.warrantyProvider);
    ReadBackTextSurvives(d.warrantyReference);
  }

  lemma SoftwareReadBackSurvives<C>(lib: Library<C>, printers: Printers, id: Id, asset: Asset)
    requires asset.details.SoftwareDetails?
    requires ParseSoftware(lib, DecodeCells(ExportRow(printers, id, asset))) == Ok(asset.details)
    ensures DetailsSurvive(lib, asset.details) && !Disposed(asset)
  {
    hide Strip, Decode, Safe, QuotedFormula, ParseDate;
    EmptyReadsBack();
    ReadBackTextSurvives(asset.details.version);
  }

  lemma ReadBackSurvives<C>(lib: Library<C>, workspace: Id, printers: Printers, id: Id, asset: Asset)
    requires ReadsBack(lib, printers) && Stored(lib, asset)
    requires ParseRow(lib, workspace, DecodeCells(ExportRow(printers, id, asset))) == Ok(RowOf(id, asset))
    ensures TextsSurvive(lib, asset) && !Disposed(asset)
  {
    hide Decode, Safe, QuotedFormula, ParseHardware, ParseSoftware, DetailsSurvive, DetailsValid, Saved,
         NoHardwareCells, NoSoftwareCells, Strip, ParseRow, DecodeCells, ExportRow;
    HeaderReadsBack(lib, workspace, printers, id, asset);
    ReadBackTextSurvives(asset.name);
    if asset.details.HardwareDetails? {
      HardwareReadBackSurvives(lib, printers, id, asset);
    } else {
      SoftwareReadBackSurvives(lib, printers, id, asset);
    }
  }

  /** Reading an exported row gives back the asset it was made from, unless it is disposed hardware or one of its texts is
      an apostrophe and a formula, and then never. */
  lemma ExportReadsBackExactly<C>(lib: Library<C>, workspace: Id, printers: Printers, id: Id, asset: Asset)
    requires ReadsBack(lib, printers) && Stored(lib, asset)
    ensures ParseRow(lib, workspace, DecodeCells(ExportRow(printers, id, asset))) == Ok(RowOf(id, asset))
       <==> !Disposed(asset) && TextsSurvive(lib, asset)
  {
    hide ReadsBack, Stored, TextsSurvive, Disposed, ParseRow, DecodeCells, ExportRow;
    if TextsSurvive(lib, asset) {
      ExportReadsBackIf(lib, workspace, printers, id, asset);
    }
    if ParseRow(lib, workspace, DecodeCells(ExportRow(printers, id, asset))) == Ok(RowOf(id, asset)) {
      ReadBackSurvives(lib, workspace, printers, id, asset);
    }
  }

  /** A name that is an apostrophe and a formula comes back without the apostrophe. */
  lemma QuotedNameIsShortened<C>(lib: Library<C>, workspace: Id, printers: Printers, id: Id, asset: Asset)
    requires ReadsBack(lib, printers) && Stored(lib, asset) && !Disposed(asset) && DetailsSurvive(lib, asset.details)
    requires QuotedFormula(asset.name) && Strip(asset.name[1..]) != ""
    ensures ParseRow(lib, workspace, DecodeCells(ExportRow(printers, id, asset)))
         == Ok(RowOf(id, asset.(name := Strip(asset.name[1..]))))
  {
    QuotedIsShortened(asset.name);
    StripShortens(asset.name[1..]);
    hide Strip, Decode, Safe, QuotedFormula, ParseDetails, DetailsValid, Saved, DetailsSurvive;
    HeaderReadsBack(lib, workspace, printers, id, asset);
    DetailsReadBack(lib, printers, id, asset);
    hide ParseRow;
  }

  /** A stored software asset that the export renames. */
  lemma QuotedNameIsLost<C>(lib: Library<C>, workspace: Id, printers: Printers, id: Id, model: Id)
    requires ReadsBack(lib, printers)
    ensures var asset := Asset("'=1", model, DefaultDetails(Software), false);
            && Stored(lib, asset)
            && ParseRow(lib, workspace, DecodeCells(ExportRow(printers, id, asset)))
               == Ok(RowOf(id, asset.(name := "=1")))
  {
    var asset := Asset("'=1", model, DefaultDetails(Software), false);
    QuotedFormulaLosesItsApostrophe();
    EmptyReadsBack();
    WordIsPlain("planned");
    assert LeftStrip("=1") == "=1" && LeftStrip("'=1") == "'=1";
    assert RightStrip("=1") == "=1" && RightStrip("'=1") == "'=1";
    assert asset.name[1..] == "=1" && QuotedFormula(asset.name);
    hide LeftStrip, RightStrip, ParseRow, DecodeCells, ExportRow, ReadsBack;
    QuotedNameIsShortened(lib, workspace, printers, id, asset);
  }

  lemma {:induction false} LeftStripShortens(s: string)
    ensures |LeftStrip(s)| <= |s|
  {
    if s != "" && Blank(s[0]) {
      LeftStripShortens(s[1..]);
    }
  }

  lemma {:induction false} RightStripShortens(s: string)
    ensures |RightStrip(s)| <= |s|
  {
    if s != "" && Blank(s[|s| - 1]) {
      RightStripShortens(s[..|s| - 1]);
    }
  }

  lemma StripShortens(s: string)
    ensures |Strip(s)| <= |s|
  {
    LeftStripShortens(s);
    RightStripShortens(LeftStrip(s));
  }

  // ---- The whole workspace ----

  function ExportAssets(printers: Printers, db: Inventory, ids: seq<Id>): (rows: seq<Cells>)
    requires forall id | id in ids :: Visible(db, id)
    ensures |rows| == |ids|
  {
    seq(|ids|, i requires 0 <= i < |ids| => assert Visible(db, ids[i]); ExportRow(printers, ids[i], db.assets[ids[i]]))
  }

  function DecodeRows(rows: seq<Cells>): (decoded: seq<Cells>)
    ensures |decoded| == |rows|
  {
    seq(|rows|, i requires 0 <= i < |rows| => DecodeCells(rows[i]))
  }

  // A row that would change nothing asks for exactly what is there.
  lemma SkippedRowIsTheAsset(db: Inventory, row: Row)
    requires Visible(db, row.id) && row.supplied && Acceptable(db, row) && PlannedAction(db, row) == Skip
    ensures row == RowOf(row.id, db.assets[row.id])
  {
    OverlayOfChangesIsRequested(db.assets[row.id].details, row.details);
    hide Changed;
  }

  lemma SkippedExportSurvives<C>(lib: Library<C>, workspace: Id, printers: Printers, db: Inventory, id: Id)
    requires ReadsBack(lib, printers) && Visible(db, id) && Stored(lib, db.assets[id])
    requires var parsed := ParseRow(lib, workspace, DecodeCells(ExportRow(printers, id, db.assets[id])));
             parsed.Ok? && Acceptable(db, parsed.value) && PlannedAction(db, parsed.value) == Skip
    ensures TextsSurvive(lib, db.assets[id]) && !Disposed(db.assets[id])
  {
    HeaderReadsBack(lib, workspace, printers, id, db.assets[id]);
    hide ParseRow, ParseDetails, DecodeCells, ExportRow, Strip, Decode, Safe, Acceptable, PlannedAction, Stored,
         TextsSurvive, ReadsBack;
    SkippedRowIsTheAsset(db, ParseRow(lib, workspace, DecodeCells(ExportRow(printers, id, db.assets[id]))).value);
    ReadBackSurvives(lib, workspace, printers, id, db.assets[id]);
  }

  /** Previewing an export in the workspace it came from finds no error and plans nothing but skips if and only if no
      exported asset is disposed hardware and none holds a text that is an apostrophe and a formula. */
  lemma ExportPreviewsAsSkipsExactly<C>(lib: Library<C>, workspace: Id, printers: Printers, db: Inventory, ids: seq<Id>)
    requires ReadsBack(lib, printers) && Unique(db)
    requires forall id | id in ids :: Visible(db, id) && Stored(lib, db.assets[id])
    requires forall i, j | 0 <= i < j < |ids| :: ids[i] != ids[j]
    ensures var report := Review(db, ParseRows(lib, workspace, DecodeRows(ExportAssets(printers, db, ids))));
            report.errors == [] && (forall plan | plan in report.plans :: plan.action == Skip)
            <==> forall id | id in ids :: TextsSurvive(lib, db.assets[id]) && !Disposed(db.assets[id])
  {
    hide ReadsBack, Stored, TextsSurvive, Disposed, ParseRow, Review, Acceptable, PlannedAction, ExportRow, DecodeCells;
    var rows := ParseRows(lib, workspace, DecodeRows(ExportAssets(printers, db, ids)));
    if forall id | id in ids :: TextsSurvive(lib, db.assets[id]) && !Disposed(db.assets[id]) {
      SurvivingExportIsSkipped(lib, workspace, printers, db, ids);
    }
    var report := Review(db, rows);
    if report.errors == [] && forall plan | plan in report.plans :: plan.action == Skip {
      ReviewDecides(db, rows);
      PlansAre(db, rows);
      forall id | id in ids ensures TextsSurvive(lib, db.assets[id]) && !Disposed(db.assets[id]) {
        var i :| 0 <= i < |ids| && ids[i] == id;
        assert report.plans[i] in report.plans;
        assert rows[i] == ParseRow(lib, workspace, DecodeCells(ExportRow(printers, id, db.assets[id])));
        SkippedExportSurvives(lib, workspace, printers, db, id);
      }
    }
  }

  lemma SurvivingExportIsSkipped<C>(lib: Library<C>, workspace: Id, printers: Printers, db: Inventory, ids: seq<Id>)
    requires ReadsBack(lib, printers) && Unique(db)
    requires forall id | id in ids :: Visible(db, id) && Stored(lib, db.assets[id]) && TextsSurvive(lib, db.assets[id])
                                      && !Disposed(db.assets[id])
    requires forall i, j | 0 <= i < j < |ids| :: ids[i] != ids[j]
    ensures var rows := ParseRows(lib, workspace, DecodeRows(ExportAssets(printers, db, ids)));
            && Review(db, rows).errors == []
            && forall plan | plan in Review(db, rows).plans :: plan.action == Skip
  {
    hide ReadsBack, Stored, TextsSurvive, Disposed, ParseRow, Review, Acceptable, PlannedAction, ExportRow, DecodeCells;
    var rows := ParseRows(lib, workspace, DecodeRows(ExportAssets(printers, db, ids)));
    forall i | 0 <= i < |ids|
      ensures rows[i] == Ok(RowOf(ids[i], db.assets[ids[i]]))
      ensures Acceptable(db, rows[i].value) && PlannedAction(db, rows[i].value) == Skip {
      assert ids[i] in ids;
      ExportReadsBackExactly(lib, workspace, printers, ids[i], db.assets[ids[i]]);
      AcceptedAgain(db, RowOf(ids[i], db.assets[ids[i]]));
    }
    ReviewDecides(db, rows);
    PlansAre(db, rows);
  }
}
