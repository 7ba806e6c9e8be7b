/** The preview of an asset CSV file: what each row would do, judged in one pass over the rows. */
module AssetPlans {
  import opened Wrappers
  import opened AssetRows

  datatype Asset = Asset(name: string, model: Id, details: Details, archived: bool)

  datatype Model = Model(kind: Kind, available: bool, supplierActive: bool, hasRevision: bool, documentsVerify: bool)

  // One workspace's assets, the ids of every entity anywhere, and the catalog models of the installation.
  datatype Inventory = Inventory(assets: map<Id, Asset>, entities: set<Id>, models: map<Id, Model>)

  datatype Action = Create | Update | Skip

  datatype Plan = Plan(number: nat, id: Id, name: string, kind: Kind, action: Action, renamed: bool,
                       changes: set<Field>)

  // The ids, serial numbers and asset tags the rows so far have claimed.
  datatype Claims = Claims(ids: set<Id>, serials: set<string>, tags: set<string>)

  const NO_CLAIMS := Claims({}, {}, {})

  predicate Visible(db: Inventory, id: Id) {
    id in db.assets && !db.assets[id].archived
  }

  predicate SerialTakenBy(asset: Asset, serial: string) {
    asset.details.HardwareDetails? && asset.details.serial == serial
  }

  predicate TagTakenBy(asset: Asset, tag: string) {
    asset.details.HardwareDetails? && asset.details.tag == tag
  }

  // Archived assets keep their identifiers.
  predicate SerialUsedElsewhere(db: Inventory, id: Id, serial: string) {
    exists other | other in db.assets :: other != id && SerialTakenBy(db.assets[other], serial)
  }

  predicate TagUsedElsewhere(db: Inventory, id: Id, tag: string) {
    exists other | other in db.assets :: other != id && TagTakenBy(db.assets[other], tag)
  }

  // ---- One row after the rows before it ----

  // The asset a row targets and its kind, or the model it would be created from.
  function TargetKind(db: Inventory, row: Row): Result<Kind, RowError> {
    if Visible(db, row.id) then
      if db.assets[row.id].model != row.model then Err(ProvenanceChange) else Ok(db.assets[row.id].details.Kind())
    else if row.supplied then Err(UnknownAsset)
    else if row.model !in db.models || !db.models[row.model].available then Err(ModelUnavailable)
    else if !db.models[row.model].supplierActive then Err(SupplierInactive)
    else Ok(db.models[row.model].kind)
  }

  // What the row would do to the asset it targets.
  function ActionOn(db: Inventory, number: nat, row: Row): Result<Plan, RowError>
    requires Visible(db, row.id) ==> db.assets[row.id].details.Kind() == row.Kind()
  {
    if !Visible(db, row.id) then
      Ok(Plan(number, row.id, row.name, row.Kind(), Create, false, {}))
    else
      var asset := db.assets[row.id];
      var renamed, changes := asset.name != row.name, Changed(asset.details, row.details);
      if asset.details.SoftwareDetails? && asset.details.status == "uninstalled" && (renamed || changes != {}) then
        Err(UninstalledSoftware)
      else
        Ok(Plan(number, row.id, row.name, row.Kind(), if renamed || changes != {} then Update else Skip, renamed,
                changes))
  }

  // Claims a serial number, then a tag; a claim stays even when the row turns out to be wrong.
  function ClaimIdentifiers(db: Inventory, claims: Claims, row: Row): (Claims, Option<RowError>) {
    if row.details.SoftwareDetails? then (claims, None)
    else
      var serial, tag := row.details.serial, row.details.tag;
      if serial != "" && serial in claims.serials then (claims, Some(SerialRepeated))
      else
        var next := if serial == "" then claims else claims.(serials := claims.serials + {serial});
        if serial != "" && SerialUsedElsewhere(db, row.id, serial) then (next, Some(SerialTaken))
        else if tag == "" then (next, None)
        else if tag in next.tags then (next, Some(TagRepeated))
        else
          var both := next.(tags := next.tags + {tag});
          (both, if TagUsedElsewhere(db, row.id, tag) then Some(TagTaken) else None)
  }

  function Judge(db: Inventory, claims: Claims, number: nat, parsed: Result<Row, RowError>)
    : (Claims, Result<Plan, RowError>)
  {
    if parsed.Err? then (claims, Err(parsed.error))
    else if parsed.value.id in claims.ids then (claims, Err(DuplicateTarget))
    else
      var row := parsed.value;
      var mine := claims.(ids := claims.ids + {row.id});
      var target := TargetKind(db, row);
      if target.Err? then (mine, Err(target.error))
      else if target.value != row.Kind() then (mine, Err(KindMismatch))
      else
        var (next, problem) := ClaimIdentifiers(db, mine, row);
        if problem.Some? then (next, Err(problem.value)) else (next, ActionOn(db, number, row))
  }

  // ---- The whole file ----

  datatype Rejection = Rejection(number: nat, error: RowError)

  datatype Report = Report(claims: Claims, plans: seq<Plan>, errors: seq<Rejection>)

  function Extended(report: Report, number: nat, judged: (Claims, Result<Plan, RowError>)): Report {
    match judged.1
    case Ok(plan) => Report(judged.0, report.plans + [plan], report.errors)
    case Err(e) => Report(judged.0, report.plans, report.errors + [Rejection(number, e)])
  }

  // The report on the rows so far; the first data row is row 2.
  function Review(db: Inventory, rows: seq<Result<Row, RowError>>): Report {
    if rows == [] then Report(NO_CLAIMS, [], [])
    else
      var before := Review(db, rows[..|rows| - 1]);
      Extended(before, |rows| + 1, Judge(db, before.claims, |rows| + 1, rows[|rows| - 1]))
  }

  lemma ReviewSnoc(db: Inventory, before: seq<Result<Row, RowError>>, last: Result<Row, RowError>)
    ensures var report, number := Review(db, before), |before| + 2;
            Review(db, before + [last]) == Extended(report, number, Judge(db, report.claims, number, last))
  {
  }

  function ParseRows<C>(lib: Library<C>, workspace: Id, cells: seq<Cells>): (rows: seq<Result<Row, RowError>>)
    ensures |rows| == |cells|
  {
    seq(|cells|, i requires 0 <= i < |cells| => ParseRow(lib, workspace, cells[i]))
  }

  function CountOf(plans: seq<Plan>, action: Action): nat {
    if plans == [] then 0
    else CountOf(plans[..|plans| - 1], action) + if plans[|plans| - 1].action == action then 1 else 0
  }

  datatype Summary = Summary(total: nat, create: nat, update: nat, skip: nat, errors: nat)

  function Summarise(report: Report, total: nat): Summary {
    Summary(total, CountOf(report.plans, Create), CountOf(report.plans, Update), CountOf(report.plans, Skip),
            |report.errors|)
  }

  lemma ExtendedCounts(report: Report, number: nat, judged: (Claims, Result<Plan, RowError>), total: nat)
    ensures var s, t := Summarise(report, total), Summarise(Extended(report, number, judged), total + 1);
            t.create + t.update + t.skip + t.errors == s.create + s.update + s.skip + s.errors + 1
  {
  }

  /** Every row is counted once: as a creation, an update, a skip or an error. */
  lemma {:induction false} EveryRowIsCounted(db: Inventory, rows: seq<Result<Row, RowError>>)
    ensures var s := Summarise(Review(db, rows), |rows|); s.create + s.update + s.skip + s.errors == s.total
  {
    hide Judge;
    if rows != [] {
      var n := |rows| - 1;
      var before := Review(db, rows[..n]);
      EveryRowIsCounted(db, rows[..n]);
      ExtendedCounts(before, n + 2, Judge(db, before.claims, n + 2, rows[n]), n);
      hide CountOf, Extended;
    }
  }

  method PreviewAssets<C>(lib: Library<C>, workspace: Id, db: Inventory, cells: seq<Cells>)
    returns (report: Report, summary: Summary)
    ensures report == Review(db, ParseRows(lib, workspace, cells))
    ensures summary == Summarise(report, |cells|)
    ensures summary.create + summary.update + summary.skip + summary.errors == summary.total
  {
    hide Judge, ParseRow;
    ghost var rows := ParseRows(lib, workspace, cells);
    var claims: Claims, plans: seq<Plan>, errors: seq<Rejection> := NO_CLAIMS, [], [];
    for i := 0 to |cells|
      invariant Report(claims, plans, errors) == Review(db, rows[..i])
    {
      var parsed := ParseRow(lib, workspace, cells[i]);
      assert rows[..i + 1] == rows[..i] + [parsed];
      ReviewSnoc(db, rows[..i], parsed);
      var (next, outcome) := Judge(db, claims, i + 2, parsed);
      claims := next;
      match outcome {
        case Ok(plan) => plans := plans + [plan];
        case Err(e) => errors := errors + [Rejection(i + 2, e)];
      }
    }
    assert rows[..|cells|] == rows;
    EveryRowIsCounted(db, rows);
    report := Report(claims, plans, errors);
    summary := Summarise(report, |cells|);
  }

  // ---- What the pass decides, in no particular order ----

  // What the row must satisfy by itself.
  predicate Acceptable(db: Inventory, row: Row) {
    && TargetKind(db, row) == Ok(row.Kind())
    && (row.details.HardwareDetails? ==>
          && (row.details.serial != "" ==> !SerialUsedElsewhere(db, row.id, row.details.serial))
          && (row.details.tag != "" ==> !TagUsedElsewhere(db, row.id, row.details.tag)))
    && ActionOn(db, 0, row).Ok?
  }

  // Two rows that cannot be in one file.
  predicate Rivals(a: Row, b: Row) {
    || a.id == b.id
    || (a.details.HardwareDetails? && b.details.HardwareDetails?
        && ((a.details.serial != "" && a.details.serial == b.details.serial)
            || (a.details.tag != "" && a.details.tag == b.details.tag)))
  }

  ghost predicate FileAcceptable(db: Inventory, rows: seq<Result<Row, RowError>>) {
    && (forall i | 0 <= i < |rows| :: rows[i].Ok? && Acceptable(db, rows[i].value))
    && (forall i, j | 0 <= i < j < |rows| :: !Rivals(rows[i].value, rows[j].value))
  }

  // The claims are exactly what the rows so far hold.
  ghost predicate ClaimsOf(claims: Claims, rows: seq<Result<Row, RowError>>) {
    && (forall id :: id in claims.ids <==> exists r :: r in rows && r.Ok? && r.value.id == id)
    && (forall s :: s in claims.serials <==>
          s != "" && exists r :: r in rows && r.Ok? && r.value.details.HardwareDetails? && r.value.details.serial == s)
    && (forall t :: t in claims.tags <==>
          t != "" && exists r :: r in rows && r.Ok? && r.value.details.HardwareDetails? && r.value.details.tag == t)
  }

  lemma JudgeDecides(db: Inventory, claims: Claims, number: nat, before: seq<Result<Row, RowError>>, row: Row)
    requires ClaimsOf(claims, before)
    ensures Judge(db, claims, number, Ok(row)).1.Ok?
       <==> Acceptable(db, row) && forall r | r in before && r.Ok? :: !Rivals(r.value, row)
  {
  }

  lemma JudgeClaims(db: Inventory, claims: Claims, number: nat, before: seq<Result<Row, RowError>>, row: Row)
    requires ClaimsOf(claims, before) && Judge(db, claims, number, Ok(row)).1.Ok?
    ensures ClaimsOf(Judge(db, claims, number, Ok(row)).0, before + [Ok(row)])
  {
    var next := Judge(db, claims, number, Ok(row)).0;
    assert next.ids == claims.ids + {row.id};
    if row.details.HardwareDetails? {
      assert next.serials == claims.serials + if row.details.serial == "" then {} else {row.details.serial};
      assert next.tags == claims.tags + if row.details.tag == "" then {} else {row.details.tag};
    } else {
      assert next.serials == claims.serials && next.tags == claims.tags;
    }
    assert Ok(row) in before + [Ok(row)];
    assert forall r :: r in before + [Ok(row)] <==> r in before || r == Ok(row);
  }

  lemma AcceptableSnoc(db: Inventory, before: seq<Result<Row, RowError>>, last: Result<Row, RowError>)
    ensures FileAcceptable(db, before + [last])
       <==> && FileAcceptable(db, before) && last.Ok? && Acceptable(db, last.value)
            && forall r | r in before && r.Ok? :: !Rivals(r.value, last.value)
  {
    hide Acceptable, Rivals;
    var all := before + [last];
    assert all[|before|] == last && forall i | 0 <= i < |before| :: all[i] == before[i];
    if FileAcceptable(db, all) {
      forall r | r in before && r.Ok? ensures !Rivals(r.value, last.value) {
        var i :| 0 <= i < |before| && before[i] == r;
        assert !Rivals(all[i].value, all[|before|].value);
      }
      forall i, j | 0 <= i < j < |before| ensures !Rivals(before[i].value, before[j].value) {
        assert !Rivals(all[i].value, all[j].value);
      }
    }
  }

  /** The preview finds no error exactly when every row is acceptable by itself and no two rows are rivals. */
  lemma {:induction false} ReviewDecides(db: Inventory, rows: seq<Result<Row, RowError>>)
    ensures Review(db, rows).errors == [] <==> FileAcceptable(db, rows)
    ensures FileAcceptable(db, rows) ==> ClaimsOf(Review(db, rows).claims, rows)
  {
    if rows != [] {
      var n := |rows| - 1;
      var before, last := rows[..n], rows[n];
      ReviewDecides(db, before);
      assert rows == before + [last];
      AcceptableSnoc(db, before, last);
      if FileAcceptable(db, before) && last.Ok? {
        JudgeStep(db, Review(db, before).claims, n + 2, before, last.value);
      }
      hide Judge, ClaimsOf, Acceptable, Rivals, FileAcceptable;
    }
  }

  lemma JudgeStep(db: Inventory, claims: Claims, number: nat, before: seq<Result<Row, RowError>>, row: Row)
    requires ClaimsOf(claims, before)
    ensures var (next, outcome) := Judge(db, claims, number, Ok(row));
            && (outcome.Ok? <==> Acceptable(db, row) && forall r | r in before && r.Ok? :: !Rivals(r.value, row))
            && (outcome.Ok? ==> ClaimsOf(next, before + [Ok(row)]))
  {
    JudgeDecides(db, claims, number, before, row);
    if Judge(db, claims, number, Ok(row)).1.Ok? {
      JudgeClaims(db, claims, number, before, row);
    }
  }

  // ---- The same on the stored rows ----

  // No other hardware, archived or not, has the serial number or the tag.
  predicate NoneElsewhere(db: Inventory, row: Row)
    requires row.details.HardwareDetails?
  {
    forall other | other in db.assets && other != row.id && db.assets[other].details.HardwareDetails? ::
      && (row.details.serial != "" ==> db.assets[other].details.serial != row.details.serial)
      && (row.details.tag != "" ==> db.assets[other].details.tag != row.details.tag)
  }

  /** A row is acceptable by itself exactly when it keeps the model and kind of an asset that is there and changes nothing
      of uninstalled software, or, without a given identifier, creates one of an available model's kind from an active
      supplier; and no other hardware has its identifiers. */
  lemma AcceptableExactly(db: Inventory, row: Row)
    ensures Acceptable(db, row)
       <==> && (if row.id in db.assets && !db.assets[row.id].archived then
                  var asset := db.assets[row.id];
                  && asset.model == row.model && asset.details.Kind() == row.details.Kind()
                  && (asset.details.SoftwareDetails? && asset.details.status == "uninstalled" ==>
                        asset.name == row.name && asset.details == row.details)
                else
                  && !row.supplied && row.model in db.models && db.models[row.model].available
                  && db.models[row.model].supplierActive && db.models[row.model].kind == row.details.Kind())
            && (row.details.HardwareDetails? ==> NoneElsewhere(db, row))
  {
    if Visible(db, row.id) && db.assets[row.id].details.Kind() == row.details.Kind() {
      OverlayOfChangesIsRequested(db.assets[row.id].details, row.details);
    }
    hide Changed;
  }

  /** What an acceptable row is planned as: a creation where no asset is, a skip where nothing differs, and otherwise an
      update that names what differs. */
  lemma PlannedExactly(db: Inventory, number: nat, row: Row)
    requires Acceptable(db, row)
    ensures ActionOn(db, number, row)
         == Ok(if row.id !in db.assets || db.assets[row.id].archived then
                 Plan(number, row.id, row.name, row.Kind(), Create, false, {})
               else
                 var asset := db.assets[row.id];
                 var same := asset.name == row.name && asset.details == row.details;
                 Plan(number, row.id, row.name, row.Kind(), if same then Skip else Update, asset.name != row.name,
                      set f: Field | ValueOf(asset.details, f) != ValueOf(row.details, f)))
  {
    if Visible(db, row.id) {
      OverlayOfChangesIsRequested(db.assets[row.id].details, row.details);
    }
    hide ValueOf;
  }
}
