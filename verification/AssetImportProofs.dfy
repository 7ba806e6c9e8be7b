/** Rows of one file never get in each other's way: executing them in turn is applying each to the initial state. */
module AssetImportProofs {
  import opened Wrappers
  import opened AssetRows
  import opened AssetPlans
  import opened AssetImports

  // Non-empty serial numbers and asset tags name one asset each.
  ghost predicate Unique(db: Inventory) {
    forall a, b | a in db.assets && b in db.assets && a != b ::
      && !SharesSerial(db.assets[a].details, db.assets[b].details)
      && !SharesTag(db.assets[a].details, db.assets[b].details)
  }

  predicate SharesSerial(a: Details, b: Details) {
    a.HardwareDetails? && b.HardwareDetails? && a.serial != "" && a.serial == b.serial
  }

  predicate SharesTag(a: Details, b: Details) {
    a.HardwareDetails? && b.HardwareDetails? && a.tag != "" && a.tag == b.tag
  }

  predicate Registered(db: Inventory) {
    db.assets.Keys <= db.entities
  }

  // A plan with nothing against it: rows acceptable one by one, and no two of them rivals.
  ghost predicate Planned<C>(lib: Library<C>, db: Inventory, rows: seq<Row>) {
    && (forall r | r in rows :: Acceptable(db, r) && Importable(lib, r.details))
    && (forall i, j | 0 <= i < j < |rows| :: !Rivals(rows[i], rows[j]))
  }

  // ---- What each row does, by the initial state alone ----

  // A creation whose values all look like defaults keeps the defaults.
  predicate Swallowed(db: Inventory, row: Row) {
    !Visible(db, row.id) && LooksDefault(row.details)
  }

  function Landing(db: Inventory, row: Row): Asset {
    Asset(row.name, row.model, if Swallowed(db, row) then DefaultDetails(row.Kind()) else row.details, false)
  }

  // Why a planned row can still be refused: the target is disposed hardware, or the creation meets something the
  // preview does not look at.
  function Refusal(db: Inventory, row: Row): Option<ApplyError>
    requires Acceptable(db, row)
  {
    if Visible(db, row.id) then
      var current := db.assets[row.id].details;
      if current != row.details && current.HardwareDetails? && current.state == "disposed" then Some(DisposedHardware)
      else None
    else if !db.models[row.model].hasRevision then Some(NoRevision)
    else if row.id in db.entities then Some(IdInUse)
    else if !db.models[row.model].documentsVerify then Some(DocumentsUnverified)
    else None
  }

  // Every row's asset replaced by what the row asks for.
  function Landed(db: Inventory, rows: seq<Row>): Inventory {
    if rows == [] then db
    else
      var before, last := Landed(db, rows[..|rows| - 1]), rows[|rows| - 1];
      before.(assets := before.assets[last.id := Landing(db, last)], entities := before.entities + {last.id})
  }

  function PlannedAction(db: Inventory, row: Row): Action
    requires Acceptable(db, row)
  {
    ActionOn(db, 0, row).value.action
  }

  function CountsOf(db: Inventory, rows: seq<Row>): Counts
    requires forall r | r in rows :: Acceptable(db, r)
  {
    if rows == [] then Counts(0, 0, 0)
    else
      var last := rows[|rows| - 1];
      assert last in rows;
      Counted(CountsOf(db, rows[..|rows| - 1]), PlannedAction(db, last))
  }

  function FirstRefusal(db: Inventory, rows: seq<Row>): Option<ApplyError>
    requires forall r | r in rows :: Acceptable(db, r)
  {
    if rows == [] then None
    else
      var last := rows[|rows| - 1];
      assert last in rows;
      var earlier := FirstRefusal(db, rows[..|rows| - 1]);
      if earlier.Some? then earlier else Refusal(db, last)
  }

  lemma {:induction false} LandedElsewhere(db: Inventory, rows: seq<Row>, id: Id)
    requires forall r | r in rows :: r.id != id
    ensures (id in Landed(db, rows).assets <==> id in db.assets) && (id in Landed(db, rows).entities <==> id in db.entities)
    ensures id in db.assets ==> Landed(db, rows).assets[id] == db.assets[id]
    ensures Landed(db, rows).models == db.models
  {
    if rows != [] {
      LandedElsewhere(db, rows[..|rows| - 1], id);
    }
  }

  lemma {:induction false} LandedAsset(db: Inventory, rows: seq<Row>, id: Id)
    requires id in Landed(db, rows).assets
    ensures (id in db.assets && Landed(db, rows).assets[id] == db.assets[id])
         || exists r :: r in rows && r.id == id && Landed(db, rows).assets[id] == Landing(db, r)
  {
    if rows != [] {
      var before, last := rows[..|rows| - 1], rows[|rows| - 1];
      if id != last.id {
        LandedAsset(db, before, id);
        if r :| r in before && r.id == id && Landed(db, before).assets[id] == Landing(db, r) {
          assert r in rows;
        }
      }
    }
  }

  // A planned row's identifiers are free among the untouched assets and among what earlier rows have written.
  lemma IdentifiersStayFree(db: Inventory, rows: seq<Row>, row: Row)
    requires Acceptable(db, row) && forall r | r in rows :: !Rivals(r, row)
    ensures IdentifiersFree(Landed(db, rows), row.id, row.details)
  {
    var after := Landed(db, rows);
    if row.details.HardwareDetails? {
      forall other | other in after.assets && other != row.id
        ensures row.details.serial != "" ==> !SerialTakenBy(after.assets[other], row.details.serial)
        ensures row.details.tag != "" ==> !TagTakenBy(after.assets[other], row.details.tag) {
        LandedAsset(db, rows, other);
      }
    }
  }

  // ---- One row in the state the earlier rows leave ----

  lemma SaveLands<C>(lib: Library<C>, db: Inventory, row: Row, fields: set<Field>)
    requires row.id in db.assets && db.assets[row.id].details.Kind() == row.Kind()
    requires Importable(lib, row.details) && IdentifiersFree(db, row.id, row.details)
    requires Overlay(db.assets[row.id].details, row.details, fields) == row.details
    requires var current := db.assets[row.id].details; current.SoftwareDetails? ==> current.status != "uninstalled"
    ensures var asset, saved := db.assets[row.id], SaveDetails(lib, db, row.id, row.details, fields);
            if asset.details.HardwareDetails? && asset.details.state == "disposed" then saved == Err(DisposedHardware)
            else saved == Ok(db.(assets := db.assets[row.id := asset.(details := row.details)]))
  {
  }

  lemma OverlayAll(current: Details, values: Details)
    requires current.Kind() == values.Kind()
    ensures Overlay(current, values, ALL_FIELDS) == values
  {
  }

  // The row sees the state it would have seen first.
  ghost predicate SameView(db: Inventory, now: Inventory, row: Row) {
    && (row.id in now.assets <==> row.id in db.assets)
    && (row.id in db.assets ==> now.assets[row.id] == db.assets[row.id])
    && (row.id in now.entities <==> row.id in db.entities)
    && now.models == db.models
  }

  // What the initial state says a row does to the state now.
  function RowResult(db: Inventory, now: Inventory, row: Row): Result<(Inventory, Action), ApplyError>
    requires Acceptable(db, row)
  {
    match Refusal(db, row)
    case Some(e) => Err(e)
    case None =>
      Ok((now.(assets := now.assets[row.id := Landing(db, row)], entities := now.entities + {row.id}),
          PlannedAction(db, row)))
  }

  lemma CreationSucceeds(db: Inventory, now: Inventory, row: Row)
    requires Acceptable(db, row) && SameView(db, now, row) && !Visible(db, row.id)
    ensures var asset := Asset(row.name, row.model, DefaultDetails(row.Kind()), false);
            CreateAsset(now, row)
            == match Refusal(db, row)
               case Some(e) => Err(e)
               case None => Ok(now.(assets := now.assets[row.id := asset], entities := now.entities + {row.id}))
    ensures PlannedAction(db, row) == Create && !Visible(now, row.id)
  {
    hide Changed, LooksDefault, SerialUsedElsewhere, TagUsedElsewhere, DefaultDetails;
  }

  lemma CreationLands<C>(lib: Library<C>, db: Inventory, now: Inventory, row: Row)
    requires Acceptable(db, row) && Importable(lib, row.details) && SameView(db, now, row) && !Visible(db, row.id)
    requires IdentifiersFree(now, row.id, row.details)
    ensures ExecuteRow(lib, now, row) == RowResult(db, now, row)
  {
    hide SaveDetails, Overlay, LooksDefault, Acceptable, CreateAsset, Refusal, PlannedAction, Importable;
    CreationSucceeds(db, now, row);
    var created := CreateAsset(now, row);
    if created.Ok? && !LooksDefault(row.details) {
      OverlayAll(DefaultDetails(row.Kind()), row.details);
      SaveLands(lib, created.value, row, ALL_FIELDS);
      assert now.assets[row.id := Asset(row.name, row.model, DefaultDetails(row.Kind()), false)]
                       [row.id := Landing(db, row)] == now.assets[row.id := Landing(db, row)];
    }
  }

  // What acceptance says of a row whose asset is there.
  lemma UpdateIsPlanned(db: Inventory, row: Row)
    requires Acceptable(db, row) && Visible(db, row.id)
    ensures var asset := db.assets[row.id];
            var same := asset.details == row.details;
            && asset.model == row.model && asset.details.Kind() == row.Kind()
            && (asset.details.SoftwareDetails? && asset.details.status == "uninstalled" ==> same)
            && PlannedAction(db, row) == (if same && asset.name == row.name then Skip else Update)
            && Refusal(db, row) == (if !same && asset.details.HardwareDetails? && asset.details.state == "disposed"
                                    then Some(DisposedHardware) else None)
            && Landing(db, row) == asset.(name := row.name, details := row.details)
            && (Changed(asset.details, row.details) == {} <==> same)
  {
    OverlayOfChangesIsRequested(db.assets[row.id].details, row.details);
    hide Changed;
  }

  lemma UpdateLands<C>(lib: Library<C>, db: Inventory, now: Inventory, row: Row)
    requires Acceptable(db, row) && Importable(lib, row.details) && SameView(db, now, row) && Visible(db, row.id)
    requires IdentifiersFree(now, row.id, row.details) && row.id in now.entities
    ensures ExecuteRow(lib, now, row) == RowResult(db, now, row)
  {
    hide SaveDetails, Overlay, Changed, Acceptable, Refusal, PlannedAction, Landing, Importable;
    var asset := now.assets[row.id];
    var renamed := now.(assets := now.assets[row.id := asset.(name := row.name)]);
    UpdateIsPlanned(db, row);
    assert now.entities + {row.id} == now.entities;
    if Changed(asset.details, row.details) != {} {
      OverlayOfChangesIsRequested(asset.details, row.details);
      SaveLands(lib, renamed, row, Changed(asset.details, row.details));
      assert renamed.assets[row.id := Landing(db, row)] == now.assets[row.id := Landing(db, row)];
    } else if asset.name == row.name {
      assert now.assets[row.id := asset] == now.assets;
    }
  }

  lemma RowLands<C>(lib: Library<C>, db: Inventory, rows: seq<Row>, row: Row)
    requires Registered(db) && Acceptable(db, row) && Importable(lib, row.details)
    requires forall r | r in rows :: !Rivals(r, row)
    ensures ExecuteRow(lib, Landed(db, rows), row) == RowResult(db, Landed(db, rows), row)
  {
    LandedElsewhere(db, rows, row.id);
    IdentifiersStayFree(db, rows, row);
    if Visible(db, row.id) {
      UpdateLands(lib, db, Landed(db, rows), row);
    } else {
      CreationLands(lib, db, Landed(db, rows), row);
    }
  }

  // ---- The whole file ----

  lemma PlannedPrefix<C>(lib: Library<C>, db: Inventory, rows: seq<Row>, n: nat)
    requires Planned(lib, db, rows) && n <= |rows|
    ensures Planned(lib, db, rows[..n])
    ensures n < |rows| ==> Acceptable(db, rows[n]) && Importable(lib, rows[n].details)
                           && forall r | r in rows[..n] :: !Rivals(r, rows[n])
  {
  }

  /** Executing a planned file does to every asset what its row asks of the initial state, and counts each row as the
      preview did; or it stops at the first row the initial state refuses. Nothing else can go wrong: the unique
      identifiers and the profile checks never do. */
  lemma {:induction false} ExecutesThePlan<C>(lib: Library<C>, db: Inventory, rows: seq<Row>)
    requires Registered(db) && Planned(lib, db, rows)
    ensures Execute(lib, db, rows)
         == match FirstRefusal(db, rows)
            case Some(e) => Err(e)
            case None => Ok(Imported(Landed(db, rows), CountsOf(db, rows)))
  {
    if rows != [] {
      var n := |rows| - 1;
      PlannedPrefix(lib, db, rows, n);
      ExecutesThePlan(lib, db, rows[..n]);
      RowLands(lib, db, rows[..n], rows[n]);
      hide ExecuteRow, Acceptable, Importable, Rivals, Refusal, Landing, Planned;
    }
  }

  /** After a file has been applied, each target holds what its row asks for and every other asset is as it was. */
  lemma WritesExactlyThePlan<C>(lib: Library<C>, db: Inventory, rows: seq<Row>, id: Id)
    requires Registered(db) && Planned(lib, db, rows) && Execute(lib, db, rows).Ok?
    ensures var after := Execute(lib, db, rows).value.db;
            && (id in after.assets <==> id in db.assets || exists r :: r in rows && r.id == id)
            && (forall r | r in rows && r.id == id :: after.assets[id] == Landing(db, r))
            && ((forall r | r in rows :: r.id != id) && id in db.assets ==> after.assets[id] == db.assets[id])
  {
    ExecutesThePlan(lib, db, rows);
    LandedAt(lib, db, rows, id);
    if forall r | r in rows :: r.id != id {
      LandedElsewhere(db, rows, id);
    }
  }

  lemma {:induction false} LandedAt<C>(lib: Library<C>, db: Inventory, rows: seq<Row>, id: Id)
    requires Planned(lib, db, rows)
    ensures forall r | r in rows && r.id == id ::
              id in Landed(db, rows).assets && Landed(db, rows).assets[id] == Landing(db, r)
  {
    if rows != [] {
      var n := |rows| - 1;
      PlannedPrefix(lib, db, rows, n);
      LandedAt(lib, db, rows[..n], id);
      hide Landing, Acceptable, Importable;
      assert forall r :: r in rows <==> r in rows[..n] || r == rows[n];
    }
  }

  lemma LandedUnique<C>(lib: Library<C>, db: Inventory, rows: seq<Row>)
    requires Unique(db) && Planned(lib, db, rows)
    ensures Unique(Landed(db, rows))
  {
    if rows != [] {
      var n := |rows| - 1;
      var last := rows[n];
      PlannedPrefix(lib, db, rows, n);
      LandedUnique(lib, db, rows[..n]);
      IdentifiersStayFree(db, rows[..n], last);
      var before, after := Landed(db, rows[..n]), Landed(db, rows);
      forall a | a in after.assets && a != last.id
        ensures !SharesSerial(after.assets[a].details, after.assets[last.id].details)
        ensures !SharesTag(after.assets[a].details, after.assets[last.id].details) {
        assert a in before.assets;
      }
    }
  }

  /** Serial numbers and asset tags stay unique after every row, not only after the last. */
  lemma UniqueAfterEveryRow<C>(lib: Library<C>, db: Inventory, rows: seq<Row>, n: nat)
    requires Registered(db) && Unique(db) && Planned(lib, db, rows) && n <= |rows|
    requires Execute(lib, db, rows[..n]).Ok?
    ensures Unique(Execute(lib, db, rows[..n]).value.db)
  {
    PlannedPrefix(lib, db, rows, n);
    ExecutesThePlan(lib, db, rows[..n]);
    LandedUnique(lib, db, rows[..n]);
  }

  // ---- The preview and the import ----

  lemma {:induction false} PlansAre(db: Inventory, rows: seq<Result<Row, RowError>>)
    requires FileAcceptable(db, rows)
    ensures |Review(db, rows).plans| == |rows|
    ensures forall i | 0 <= i < |rows| :: Review(db, rows).plans[i].action == PlannedAction(db, rows[i].value)
  {
    if rows != [] {
      var n := |rows| - 1;
      var before := rows[..n];
      assert rows == before + [rows[n]];
      AcceptableSnoc(db, before, rows[n]);
      PlansAre(db, before);
      ReviewDecides(db, before);
      JudgeDecides(db, Review(db, before).claims, n + 2, before, rows[n].value);
      forall i | 0 <= i < n ensures Review(db, rows).plans[i].action == PlannedAction(db, rows[i].value) {
        assert Review(db, rows).plans[i] == Review(db, before).plans[i];
      }
    }
  }

  lemma {:induction false} CountsAgree(db: Inventory, plans: seq<Plan>, rows: seq<Row>)
    requires (forall r | r in rows :: Acceptable(db, r)) && |plans| == |rows|
    requires forall i | 0 <= i < |rows| :: plans[i].action == PlannedAction(db, rows[i])
    ensures CountsOf(db, rows) == Counts(CountOf(plans, Create), CountOf(plans, Update), CountOf(plans, Skip))
  {
    if rows != [] {
      hide Acceptable, PlannedAction;
      CountsAgree(db, plans[..|plans| - 1], rows[..|rows| - 1]);
    }
  }

  lemma ParsedFileIsPlanned<C>(lib: Library<C>, workspace: Id, db: Inventory, cells: seq<Cells>)
    requires Normalises(lib) && FileAcceptable(db, ParseRows(lib, workspace, cells))
    ensures Planned(lib, db, Values(ParseRows(lib, workspace, cells)))
  {
    hide ParseRow, Acceptable, Importable, Rivals;
    var rows := Values(ParseRows(lib, workspace, cells));
    forall r | r in rows ensures Acceptable(db, r) && Importable(lib, r.details) {
      var i :| 0 <= i < |rows| && rows[i] == r;
      ParsedRowIsImportable(lib, workspace, cells[i]);
    }
  }

  /** A file applied with the token of some earlier preview, of whatever content and in whatever state, has that
      preview's content and plan digests. Unless two different plans share a digest, it is that plan which is performed,
      with the creations, updates and skips the preview counted. */
  lemma AppliesThePreviewedPlan<C, D>(lib: Library<C>, digests: Digests<C, D>, workspace: Id,
                                      shown: Inventory, shownContent: C, db: Inventory, content: C)
    requires Normalises(lib) && Registered(db) && lib.read(shownContent).Some?
    requires var report := Review(shown, ParseRows(lib, workspace, lib.read(shownContent).value));
             Apply(lib, digests, workspace, db, content, TokenOf(digests, workspace, shownContent, report)).Ok?
    ensures var report := Review(shown, ParseRows(lib, workspace, lib.read(shownContent).value));
            var token := TokenOf(digests, workspace, shownContent, report);
            var summary := Summarise(report, |lib.read(shownContent).value|);
            var plans := Review(db, ParseRows(lib, workspace, lib.read(content).value)).plans;
            && digests.source(content) == digests.source(shownContent)
            && digests.plans(plans) == digests.plans(report.plans)
            && (plans == report.plans ==>
                  Apply(lib, digests, workspace, db, content, token).value.counts
                  == Counts(summary.create, summary.update, summary.skip))
  {
    hide Review, Execute, ParseRows, Judge, Acceptable;
    var rows := ParseRows(lib, workspace, lib.read(content).value);
    var plans := Review(db, rows).plans;
    ReviewDecides(db, rows);
    ParsedFileIsPlanned(lib, workspace, db, lib.read(content).value);
    ExecutesThePlan(lib, db, Values(rows));
    PlansAre(db, rows);
    CountsAgree(db, plans, Values(rows));
  }

  /** An import in a workspace with unique identifiers leaves them unique, and it can be refused after its plan is
      accepted for four reasons only, none of them the unique identifiers. */
  lemma ImportKeepsUnique<C, D>(lib: Library<C>, digests: Digests<C, D>, workspace: Id, db: Inventory, content: C,
                                signed: Option<Token<D>>)
    requires Normalises(lib) && Registered(db) && Unique(db)
    ensures match Apply(lib, digests, workspace, db, content, signed)
            case Ok(imported) => Unique(imported.db) && Registered(imported.db)
            case Err(e) => e in {BadToken, Unreadable, NoLongerValid, PlanChanged,
                                 DisposedHardware, NoRevision, IdInUse, DocumentsUnverified}
  {
    hide Review, Execute, ParseRows, Judge, Acceptable, Unique, Planned;
    if signed.Some? && lib.read(content).Some? {
      var cells := lib.read(content).value;
      var rows := ParseRows(lib, workspace, cells);
      ReviewDecides(db, rows);
      if Review(db, rows).errors == [] {
        ParsedFileIsPlanned(lib, workspace, db, cells);
        ExecutesThePlan(lib, db, Values(rows));
        LandedUnique(lib, db, Values(rows));
        LandedRegistered(db, Values(rows));
        RefusalsAreFew(lib, db, Values(rows));
      }
    }
  }

  lemma {:induction false} LandedRegistered(db: Inventory, rows: seq<Row>)
    requires Registered(db)
    ensures Registered(Landed(db, rows))
  {
    if rows != [] {
      LandedRegistered(db, rows[..|rows| - 1]);
    }
  }

  lemma {:induction false} RefusalsAreFew<C>(lib: Library<C>, db: Inventory, rows: seq<Row>)
    requires Planned(lib, db, rows)
    ensures FirstRefusal(db, rows).Some? ==>
              FirstRefusal(db, rows).value in {DisposedHardware, NoRevision, IdInUse, DocumentsUnverified}
  {
    if rows != [] {
      PlannedPrefix(lib, db, rows, |rows| - 1);
      RefusalsAreFew(lib, db, rows[..|rows| - 1]);
    }
  }

  // ---- What an import stores, field by field ----

  function Dates(details: Details): seq<Date> {
    match details.Kind()
    case Hardware => [details.acquiredOn, details.warrantyStartsOn, details.warrantyEndsOn]
    case Software => [details.installedOn, details.verifiedOn]
  }

  // The texts, the state or status first.
  function Texts(details: Details): seq<string> {
    match details.Kind()
    case Hardware => [details.state, details.serial, details.tag, details.acquisitionMethod, details.acquisitionReference,
                      details.warrantyProvider, details.warrantyReference]
    case Software => [details.status, details.version]
  }

  // The state a kind starts in.
  function StartingWord(kind: Kind): string {
    if kind == Hardware then "in_stock" else "planned"
  }

  ghost predicate NothingButStartingWord(details: Details) {
    && (forall date | date in Dates(details) :: date == None)
    && (forall text | text in Texts(details) :: text in {"", StartingWord(details.Kind())})
  }

  lemma SameFields(a: Details, b: Details)
    requires a.Kind() == b.Kind()
    ensures a == b <==> Dates(a) == Dates(b) && Texts(a) == Texts(b)
  {
    if Dates(a) == Dates(b) && Texts(a) == Texts(b) {
      assert forall k | 0 <= k < |Dates(a)| :: Dates(a)[k] == Dates(b)[k];
      assert forall k | 0 <= k < |Texts(a)| :: Texts(a)[k] == Texts(b)[k];
    }
  }

  lemma DefaultsHoldTheWord(kind: Kind)
    ensures var start := DefaultDetails(kind);
            && start.Kind() == kind
            && (forall k | 0 <= k < |Dates(start)| :: Dates(start)[k] == None)
            && Texts(start)[0] == StartingWord(kind) && (forall k | 1 <= k < |Texts(start)| :: Texts(start)[k] == "")
  {
  }

  lemma LooksDefaultExactly(details: Details)
    ensures LooksDefault(details) <==> NothingButStartingWord(details)
  {
    if details.HardwareDetails? {
      assert details.acquiredOn in Dates(details) && details.warrantyStartsOn in Dates(details)
             && details.warrantyEndsOn in Dates(details);
      assert forall text :: text in Texts(details) <==>
               text in [details.serial, details.tag, details.state, details.acquisitionMethod,
                        details.acquisitionReference, details.warrantyProvider, details.warrantyReference];
    } else {
      assert details.installedOn in Dates(details) && details.verifiedOn in Dates(details);
      assert details.status in Texts(details) && details.version in Texts(details);
    }
  }

  lemma ImportableHasState<C>(lib: Library<C>, details: Details)
    requires Importable(lib, details)
    ensures Texts(details)[0] != ""
  {
  }

  // Some text besides the state says something.
  predicate SaysMore(details: Details) {
    exists k | 1 <= k < |Texts(details)| :: Texts(details)[k] != ""
  }

  // The dates, and every text that is neither empty nor the starting state, are stored as given; the details differ exactly
  // when there is nothing else to store and yet something is said besides the state.
  ghost predicate StoredButForTheWord(details: Details, stored: Details) {
    && stored.Kind() == details.Kind() && Dates(stored) == Dates(details)
    && (forall k | 0 <= k < |Texts(details)| ::
          Texts(details)[k] !in {"", StartingWord(details.Kind())} ==> Texts(stored)[k] == Texts(details)[k])
    && (stored != details <==> NothingButStartingWord(details) && SaysMore(details))
  }

  lemma DefaultsInstead(details: Details)
    requires NothingButStartingWord(details) && Texts(details)[0] != ""
    ensures StoredButForTheWord(details, DefaultDetails(details.Kind()))
  {
    var start := DefaultDetails(details.Kind());
    DefaultsHoldTheWord(details.Kind());
    SameFields(start, details);
    hide DefaultDetails, Dates, Texts;
    assert |Dates(start)| == |Dates(details)| && |Texts(start)| == |Texts(details)| by { SameShape(start, details); }
    forall k | 0 <= k < |Dates(details)| ensures Dates(start)[k] == Dates(details)[k] {
      assert Dates(details)[k] in Dates(details);
    }
    forall k | 0 <= k < |Texts(details)| ensures Texts(details)[k] in {"", StartingWord(details.Kind())} {
      assert Texts(details)[k] in Texts(details);
    }
    if !SaysMore(details) {
      assert Texts(start) == Texts(details);
    }
  }

  lemma SameShape(a: Details, b: Details)
    requires a.Kind() == b.Kind()
    ensures |Dates(a)| == |Dates(b)| && |Texts(a)| == |Texts(b)| >= 1
  {
  }

  lemma LandsButForTheWord(db: Inventory, row: Row)
    requires Texts(row.details)[0] != "" && !Visible(db, row.id)
    ensures StoredButForTheWord(row.details, Landing(db, row).details)
  {
    LooksDefaultExactly(row.details);
    hide LooksDefault, DefaultDetails, StartingWord;
    if LooksDefault(row.details) {
      hide StoredButForTheWord;
      DefaultsInstead(row.details);
    }
  }

  /** After an accepted import a created asset has its row's name and model, every date, and every text but those that are
      empty or the kind's starting state, exactly as the row gives them. Its details differ from the row's exactly when
      the row gives no date, no text but such, and one of these besides its state is not empty. */
  lemma CreationStores<C>(lib: Library<C>, db: Inventory, rows: seq<Row>, row: Row)
    requires Registered(db) && Planned(lib, db, rows) && Execute(lib, db, rows).Ok?
    requires row in rows && !(row.id in db.assets && !db.assets[row.id].archived)
    ensures var after := Execute(lib, db, rows).value.db;
            row.id in after.assets
            && var stored := after.assets[row.id];
               && stored.name == row.name && stored.model == row.model && !stored.archived
               && StoredButForTheWord(row.details, stored.details)
  {
    WritesExactlyThePlan(lib, db, rows, row.id);
    assert Importable(lib, row.details);
    ImportableHasState(lib, row.details);
    hide Execute, Planned, LooksDefault, DefaultDetails, StoredButForTheWord, Dates, Texts, Importable, Registered;
    LandsButForTheWord(db, row);
  }

  /** After an accepted import an asset that was there keeps its model and holds exactly its row's name and details. */
  lemma UpdateStores<C>(lib: Library<C>, db: Inventory, rows: seq<Row>, row: Row)
    requires Registered(db) && Planned(lib, db, rows) && Execute(lib, db, rows).Ok?
    requires row in rows && row.id in db.assets && !db.assets[row.id].archived
    ensures var after := Execute(lib, db, rows).value.db;
            row.id in after.assets
            && after.assets[row.id] == db.assets[row.id].(name := row.name, details := row.details)
  {
    WritesExactlyThePlan(lib, db, rows, row.id);
    hide Execute, DefaultDetails, Importable;
  }

  /** An import that succeeds has parsed every row, found the file planned, and executed those rows. */
  lemma AppliesItsRows<C, D>(lib: Library<C>, digests: Digests<C, D>, workspace: Id, db: Inventory, content: C,
                             signed: Option<Token<D>>)
    requires Normalises(lib) && Registered(db) && Apply(lib, digests, workspace, db, content, signed).Ok?
    ensures lib.read(content).Some?
    ensures var cells := lib.read(content).value;
            && (forall i | 0 <= i < |cells| :: ParseRow(lib, workspace, cells[i]).Ok?)
            && var rows := seq(|cells|, i requires 0 <= i < |cells| => ParseRow(lib, workspace, cells[i]).value);
               && Planned(lib, db, rows)
               && Execute(lib, db, rows) == Apply(lib, digests, workspace, db, content, signed)
  {
    hide Review, Execute, ParseRow, Judge, Acceptable;
    var cells := lib.read(content).value;
    ReviewDecides(db, ParseRows(lib, workspace, cells));
    ParsedFileIsPlanned(lib, workspace, db, cells);
    forall i | 0 <= i < |cells| ensures ParseRow(lib, workspace, cells[i]).Ok? {
      assert ParseRows(lib, workspace, cells)[i].Ok?;
    }
    assert Values(ParseRows(lib, workspace, cells))
        == seq(|cells|, i requires 0 <= i < |cells| => ParseRow(lib, workspace, cells[i]).value);
  }

  /** A preview hands out a token exactly for an acceptable file: that of its workspace, content and plan. */
  lemma TokenForAcceptableFiles<C, D>(lib: Library<C>, digests: Digests<C, D>, workspace: Id, db: Inventory, content: C,
                                      rows: seq<Result<Row, RowError>>)
    ensures TokenOf(digests, workspace, content, Review(db, rows))
         == if FileAcceptable(db, rows)
            then Some(Token(workspace, digests.source(content), digests.plans(Review(db, rows).plans))) else None
  {
    ReviewDecides(db, rows);
    hide Review, FileAcceptable;
  }

  /** An import succeeds exactly with a readable, acceptable file, the token of this workspace, file and plan, and no row
      the state refuses. Otherwise its error names the first of these that is missing. */
  lemma AppliesExactly<C, D>(lib: Library<C>, digests: Digests<C, D>, workspace: Id, db: Inventory, content: C,
                             signed: Option<Token<D>>)
    requires Normalises(lib) && Registered(db)
    ensures var applied := Apply(lib, digests, workspace, db, content, signed);
            if signed == None then applied == Err(BadToken)
            else if lib.read(content) == None then applied == Err(Unreadable)
            else
              var rows := ParseRows(lib, workspace, lib.read(content).value);
              var report := Review(db, rows);
              if !FileAcceptable(db, rows) then applied == Err(NoLongerValid)
              else if signed != Some(Token(workspace, digests.source(content), digests.plans(report.plans))) then
                applied == Err(PlanChanged)
              else
                && (applied.Ok? <==> FirstRefusal(db, Values(rows)) == None)
                && (applied.Err? ==> FirstRefusal(db, Values(rows)) == Some(applied.error))
  {
    hide Review, Execute, ParseRows, Judge, Acceptable, Planned, FileAcceptable, Registered, FirstRefusal;
    if signed.Some? && lib.read(content).Some? {
      var cells := lib.read(content).value;
      var rows := ParseRows(lib, workspace, cells);
      TokenForAcceptableFiles(lib, digests, workspace, db, content, rows);
      ReviewDecides(db, rows);
      if FileAcceptable(db, rows) {
        ParsedFileIsPlanned(lib, workspace, db, cells);
        AcceptableAll(db, rows);
        ExecutesThePlan(lib, db, Values(rows));
      }
    }
  }

  lemma AcceptableAll(db: Inventory, rows: seq<Result<Row, RowError>>)
    requires FileAcceptable(db, rows)
    ensures (forall i | 0 <= i < |rows| :: rows[i].Ok?) && forall r | r in Values(rows) :: Acceptable(db, r)
  {
    hide Acceptable;
    forall r | r in Values(rows) ensures Acceptable(db, r) {
      var i :| 0 <= i < |rows| && Values(rows)[i] == r;
      assert Acceptable(db, rows[i].value);
    }
  }

  /** A save is refused for the wrong kind of profile, disposed hardware and uninstalled software, for details out of bounds
      and for an identifier another asset has, and for nothing else; it then leaves the asset's other fields alone. */
  lemma SavesExactly<C>(lib: Library<C>, db: Inventory, id: Id, values: Details, fields: set<Field>)
    requires id in db.assets
    ensures var asset, saved := db.assets[id], SaveDetails(lib, db, id, values, fields);
            if asset.details.Kind() != values.Kind() then saved == Err(WrongProfile)
            else if asset.details.HardwareDetails? && asset.details.state == "disposed" then saved == Err(DisposedHardware)
            else if asset.details.SoftwareDetails? && asset.details.status == "uninstalled" then
              saved == Err(UninstalledEdit)
            else
              var details := Overlay(asset.details, Saved(lib, values), fields);
              var after := db.(assets := db.assets[id := asset.(details := details)]);
              if !WithinBounds(details) then saved == Err(InvalidProfile)
              else if exists other | other in db.assets && other != id ::
                        SharesSerial(db.assets[other].details, details) || SharesTag(db.assets[other].details, details)
              then saved == Err(IdentifierNotUnique)
              else saved == Ok(after)
  {
    hide Saved, Overlay, WithinBounds;
    var asset := db.assets[id];
    if asset.details.Kind() == values.Kind() {
      ValidExactly(Overlay(asset.details, Saved(lib, values), fields));
    }
    hide DetailsValid;
  }

  // ---- Importing the same file again ----

  // The row's details reach its asset: it is not a creation that writes none and differs from the defaults.
  predicate Written(db: Inventory, row: Row) {
    Visible(db, row.id) || !LooksDefault(row.details) || row.details == DefaultDetails(row.Kind())
  }

  function Parsed(rows: seq<Row>): (parsed: seq<Result<Row, RowError>>)
    ensures |parsed| == |rows| && forall i | 0 <= i < |rows| :: parsed[i] == Ok(rows[i])
  {
    seq(|rows|, i requires 0 <= i < |rows| => Ok(rows[i]))
  }

  lemma AcceptedAgain(after: Inventory, row: Row)
    requires Unique(after) && Visible(after, row.id)
    requires after.assets[row.id] == Asset(row.name, row.model, row.details, false)
    ensures Acceptable(after, row) && PlannedAction(after, row) == Skip
  {
  }

  lemma NotSkippedAgain(after: Inventory, row: Row)
    requires Visible(after, row.id) && Acceptable(after, row) && after.assets[row.id].details != row.details
    ensures PlannedAction(after, row) != Skip
  {
    OverlayOfChangesIsRequested(after.assets[row.id].details, row.details);
    hide Overlay;
  }

  /** Previewing an applied file once more finds no error and plans nothing but skips exactly when every row's details
      were written: a creation whose values all look like defaults, yet are not, comes back as a change. */
  lemma ReimportSkipsExactly<C>(lib: Library<C>, db: Inventory, rows: seq<Row>)
    requires Registered(db) && Unique(db) && Planned(lib, db, rows) && Execute(lib, db, rows).Ok?
    ensures var again := Review(Execute(lib, db, rows).value.db, Parsed(rows));
            again.errors == [] && (forall plan | plan in again.plans :: plan.action == Skip)
            <==> forall r | r in rows :: Written(db, r)
  {
    hide Execute, Review, Judge, Acceptable, Importable, PlannedAction, Rivals, Unique, Registered, Landed;
    var after := Execute(lib, db, rows).value.db;
    var again := Review(after, Parsed(rows));
    ExecutesThePlan(lib, db, rows);
    LandedUnique(lib, db, rows);
    ReviewDecides(after, Parsed(rows));
    forall r | r in rows ensures Visible(after, r.id) && after.assets[r.id] == Landing(db, r) {
      LandedAt(lib, db, rows, r.id);
    }
    if forall r | r in rows :: Written(db, r) {
      forall i | 0 <= i < |rows| ensures Acceptable(after, rows[i]) && PlannedAction(after, rows[i]) == Skip {
        AcceptedAgain(after, rows[i]);
      }
      PlansAre(after, Parsed(rows));
    }
    if again.errors == [] && forall plan | plan in again.plans :: plan.action == Skip {
      PlansAre(after, Parsed(rows));
      forall r | r in rows ensures Written(db, r) {
        var i :| 0 <= i < |rows| && rows[i] == r;
        assert again.plans[i] in again.plans;
        if after.assets[r.id].details != r.details {
          NotSkippedAgain(after, r);
        }
      }
    }
  }

  // ---- Two rows that an accepted plan does not serve ----

  // A blank hardware row with one free text.
  function RouterRow(id: Id, model: Id, reference: string): Row {
    Row(id, false, "Router", model, HardwareDetails("", "", "in_stock", None, "", reference, "", None, None, ""))
  }

  /** An import that creates a router whose acquisition reference reads "in_stock" succeeds and stores no reference, so
      that the same row is planned as a change the next time. */
  lemma DefaultLookingTextIsLost<C>(lib: Library<C>, db: Inventory, id: Id, model: Id)
    requires id !in db.entities && Registered(db)
    requires model in db.models && db.models[model] == Model(Hardware, true, true, true, true)
    ensures var row := RouterRow(id, model, "in_stock");
            && Review(db, [Ok(row)]).errors == []
            && Execute(lib, db, [row]).Ok?
            && var after := Execute(lib, db, [row]).value.db;
               && id in after.assets && after.assets[id].details.HardwareDetails?
               && after.assets[id].details.acquisitionReference == ""
               && Review(after, [Ok(row)]).plans
                  == [Plan(2, id, "Router", Hardware, Update, false, {AcquisitionReference})]
  {
    var row := RouterRow(id, model, "in_stock");
    assert [row][..0] == [];
    var rows: seq<Result<Row, RowError>> := [Ok(row)];
    assert rows[..0] == [];
    assert LooksDefault(row.details);
    var after := db.(assets := db.assets[id := Asset("Router", model, DefaultDetails(Hardware), false)],
                     entities := db.entities + {id});
    assert ExecuteRow(lib, db, row) == Ok((after, Create));
    assert Execute(lib, db, []) == Ok(Imported(db, Counts(0, 0, 0)));
    assert Execute(lib, db, [row]) == Ok(Imported(after, Counts(1, 0, 0)));
    assert Changed(DefaultDetails(Hardware), row.details) == {AcquisitionReference};
  }

  /** A row that brings disposed hardware back is previewed as an update without an error, and refused when applied. */
  lemma DisposedUpdateIsPlannedThenRefused<C>(lib: Library<C>, db: Inventory, id: Id)
    requires Visible(db, id) && db.assets[id].details.HardwareDetails? && db.assets[id].details.state == "disposed"
    ensures var row := RouterRow(id, db.assets[id].model, "");
            && Review(db, [Ok(row)]).errors == []
            && |Review(db, [Ok(row)]).plans| == 1 && Review(db, [Ok(row)]).plans[0].action == Update
            && Execute(lib, db, [row]) == Err(DisposedHardware)
  {
    var row := RouterRow(id, db.assets[id].model, "");
    assert [row][..0] == [];
    var rows: seq<Result<Row, RowError>> := [Ok(row)];
    assert rows[..0] == [];
    OverlayOfChangesIsRequested(db.assets[id].details, row.details);
    hide Changed, Overlay;
  }
}
