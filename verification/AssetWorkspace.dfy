/** The import as it runs: one transaction over a workspace's inventory. */
module AssetWorkspace {
  import opened Wrappers
  import opened AssetRows
  import opened AssetPlans
  import opened AssetImports

  lemma ExecuteSnoc<C>(lib: Library<C>, db: Inventory, rows: seq<Row>, i: nat)
    requires i < |rows| && Execute(lib, db, rows[..i]).Ok?
    ensures var before := Execute(lib, db, rows[..i]).value;
            match ExecuteRow(lib, before.db, rows[i])
            case Ok(done) => Execute(lib, db, rows[..i + 1]) == Ok(Imported(done.0, Counted(before.counts, done.1)))
            case Err(e) => Execute(lib, db, rows[..i + 1]) == Err(e) && Execute(lib, db, rows) == Err(e)
  {
    hide ExecuteRow;
    assert rows[..i + 1][..i] == rows[..i];
    if ExecuteRow(lib, Execute(lib, db, rows[..i]).value.db, rows[i]).Err? {
      FailureStands(lib, db, rows, i + 1);
    }
  }

  lemma {:induction false} FailureStands<C>(lib: Library<C>, db: Inventory, rows: seq<Row>, n: nat)
    requires n <= |rows| && Execute(lib, db, rows[..n]).Err?
    ensures Execute(lib, db, rows) == Execute(lib, db, rows[..n])
    decreases |rows|
  {
    hide ExecuteRow;
    if n == |rows| {
      assert rows[..n] == rows;
    } else {
      assert rows[..|rows| - 1][..n] == rows[..n];
      FailureStands(lib, db, rows[..|rows| - 1], n);
    }
  }

  class Workspace {
    const id: Id
    var inventory: Inventory

    constructor (id: Id, inventory: Inventory)
      ensures this.id == id && this.inventory == inventory
    {
      this.id, this.inventory := id, inventory;
    }

    // Any error, in any row, leaves the inventory as it was.
    method ApplyAssets<C, D(==)>(lib: Library<C>, digests: Digests<C, D>, content: C, signed: Option<Token<D>>)
      returns (outcome: Result<Counts, ApplyError>)
      modifies this
      ensures match Apply(lib, digests, id, old(inventory), content, signed)
              case Ok(imported) => outcome == Ok(imported.counts) && inventory == imported.db
              case Err(e) => outcome == Err(e) && inventory == old(inventory)
    {
      hide ExecuteRow, ParseRow, Judge;
      if signed.None? {
        return Err(BadToken);
      }
      var read := lib.read(content);
      if read.None? {
        return Err(Unreadable);
      }
      var report, _ := PreviewAssets(lib, id, inventory, read.value);
      if report.errors != [] {
        return Err(NoLongerValid);
      }
      if TokenOf(digests, id, content, report) != signed {
        return Err(PlanChanged);
      }
      ReviewDecides(inventory, ParseRows(lib, id, read.value));
      var saved, rows, counts := inventory, Values(ParseRows(lib, id, read.value)), Counts(0, 0, 0);
      for i := 0 to |rows|
        invariant Execute(lib, saved, rows[..i]) == Ok(Imported(inventory, counts))
      {
        ExecuteSnoc(lib, saved, rows, i);
        var done := ExecuteRow(lib, inventory, rows[i]);
        if done.Err? {
          inventory := saved;
          return Err(done.error);
        }
        inventory := done.value.0;
        match done.value.1 {
          case Create => counts := counts.(created := counts.created + 1);
          case Update => counts := counts.(updated := counts.updated + 1);
          case Skip => counts := counts.(skipped := counts.skipped + 1);
        }
      }
      assert rows[..|rows|] == rows;
      return Ok(counts);
    }
  }
}
