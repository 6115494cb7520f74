/**
 * The migration as the statements it issues against a live database: the
 * three tables and the auto-increment counter of `module_details` are
 * fields that each statement updates in place, and
 * `migrate_data_to_module_details` is the loop that reads the result set
 * and issues one INSERT and one UPDATE per row. Each method is proved to
 * leave exactly the state the corresponding function of `Relocation` or
 * `Revision` describes, so every property proved there holds of it.
 */
module Script {
  import opened Wrappers
  import opened Tables
  import opened Relocation
  import Revision

  class Database {
    var moduleVersion: map<int, Row>
    var submodule: map<int, Row>
    var details: map<int, Detail>
    var nextId: int
    var detailsTable: bool
    var blobColumns: set<TableName>
    var linkColumns: set<TableName>

    /** The whole database as a value. */
    function State(): DbState
      reads this
    {
      DbState(moduleVersion, submodule, details, nextId, detailsTable, blobColumns, linkColumns)
    }

    constructor (db: DbState)
      ensures State() == db
    {
      moduleVersion := db.moduleVersion;
      submodule := db.submodule;
      details := db.details;
      nextId := db.nextId;
      detailsTable := db.detailsTable;
      blobColumns := db.blobColumns;
      linkColumns := db.linkColumns;
    }

    /** Replaces the rows of a source table. */
    method SetRows(t: TableName, rows: map<int, Row>)
      modifies this
      ensures State() == old(State()).WithRows(t, rows)
    {
      if t == ModuleVersion {
        moduleVersion := rows;
      } else {
        submodule := rows;
      }
    }

    // ----- Statements -----

    /** `op.create_table('module_details', ...)`: a new, empty table whose auto-increment key starts at 1. */
    method CreateDetailsTable()
      requires !detailsTable
      modifies this
      ensures State() == old(State()).(details := map[], nextId := 1, detailsTable := true)
    {
      details := map[];
      nextId := 1;
      detailsTable := true;
    }

    /** `batch_op.add_column('module_details_id', nullable=True)` and its foreign key: NULL in every row. */
    method AddLinkColumn(t: TableName)
      requires t !in linkColumns
      modifies this
      ensures State() == old(State()).WithRows(t, Revision.ClearLinks(old(State()).Rows(t))).(linkColumns := old(linkColumns) + {t})
    {
      SetRows(t, Revision.ClearLinks(State().Rows(t)));
      linkColumns := linkColumns + {t};
    }

    /** `batch_op.drop_column('readme_content')` and `batch_op.drop_column('module_details')`. */
    method DropBlobColumns(t: TableName)
      requires t in blobColumns
      modifies this
      ensures State() == old(State()).WithRows(t, Revision.ClearBlobs(old(State()).Rows(t))).(blobColumns := old(blobColumns) - {t})
    {
      SetRows(t, Revision.ClearBlobs(State().Rows(t)));
      blobColumns := blobColumns - {t};
    }

    /** `batch_op.add_column('module_details')` and `batch_op.add_column('readme_content')`: NULL in every row. */
    method AddBlobColumns(t: TableName)
      requires t !in blobColumns
      modifies this
      ensures State() == old(State()).WithRows(t, Revision.ClearBlobs(old(State()).Rows(t))).(blobColumns := old(blobColumns) + {t})
    {
      SetRows(t, Revision.ClearBlobs(State().Rows(t)));
      blobColumns := blobColumns + {t};
    }

    /** `batch_op.drop_constraint(...)` and `batch_op.drop_column('module_details_id')`. */
    method DropLinkColumn(t: TableName)
      requires t in linkColumns
      modifies this
      ensures State() == old(State()).WithRows(t, Revision.ClearLinks(old(State()).Rows(t))).(linkColumns := old(linkColumns) - {t})
    {
      SetRows(t, Revision.ClearLinks(State().Rows(t)));
      linkColumns := linkColumns - {t};
    }

    /** `op.drop_table('module_details')`. */
    method DropDetailsTable()
      requires detailsTable
      modifies this
      ensures State() == old(State()).(details := map[], detailsTable := false)
    {
      details := map[];
      detailsTable := false;
    }

    /**
     * `INSERT INTO module_details(readme_content, terraform_docs) VALUES(...)`:
     * the row goes in under the next auto-increment key, which is returned
     * as `inserted_primary_key[0]`; that key was free.
     */
    method InsertModuleDetails(d: Detail) returns (id: int)
      requires detailsTable
      requires KeysBelow(details, nextId)
      modifies this
      ensures id == old(nextId) && id !in old(details)
      ensures State() == old(State()).(details := old(details)[id := d], nextId := id + 1)
      ensures KeysBelow(details, nextId)
    {
      id := nextId;
      details := details[id := d];
      nextId := nextId + 1;
    }

    /** `UPDATE <source> SET module_details_id=:module_details_id WHERE id=:source_id`. */
    method SetModuleDetailsId(t: TableName, sourceId: int, link: int)
      requires t in linkColumns
      modifies this
      ensures State() == old(State()).WithRows(t, SetLink(old(State()).Rows(t), sourceId, link))
    {
      SetRows(t, SetLink(State().Rows(t), sourceId, link));
    }

    /**
     * `UPDATE <source> SET module_details=(SELECT terraform_docs FROM module_details WHERE id=<source>.id),
     * readme_content=(SELECT readme_content FROM module_details WHERE id=<source>.id)`.
     */
    method RestoreBlobsById(t: TableName)
      requires t in blobColumns && detailsTable
      modifies this
      ensures State() == old(State()).WithRows(t, Revision.RestoreById(old(State()).Rows(t), old(details)))
    {
      SetRows(t, Revision.RestoreById(State().Rows(t), details));
    }

    /** The same UPDATE correlated through `<source>.module_details_id` instead of `<source>.id`. */
    method RestoreBlobsByLink(t: TableName)
      requires t in blobColumns && t in linkColumns && detailsTable
      modifies this
      ensures State() == old(State()).WithRows(t, Revision.RestoreByLink(old(State()).Rows(t), old(details)))
    {
      SetRows(t, Revision.RestoreByLink(State().Rows(t), details));
    }

    // ----- migrate_data_to_module_details -----

    /**
     * `migrate_data_to_module_details(c, t)`, with the SELECT returning the
     * rows in the order `order`: for each row read, INSERT its blobs into
     * `module_details` and write the generated key into its
     * `module_details_id`. The new state is the fold `Relocate` over the
     * result set, whose properties `Relocation` proves.
     */
    method MigrateDataToModuleDetails(t: TableName, order: seq<int>)
      requires detailsTable && t in linkColumns
      requires KeysBelow(details, nextId)
      requires ListsKeys(order, State().Rows(t).Keys)
      modifies this
      ensures var r := Relocate(Store(old(State()).Rows(t), old(details), old(nextId)), Select(old(State()).Rows(t), order));
        State() == old(State()).WithRows(t, r.rows).(details := r.details, nextId := r.nextId)
    {
      ghost var db0 := State();
      var res := Select(State().Rows(t), order);
      ghost var st0 := Store(State().Rows(t), details, nextId);
      var i := 0;
      while i < |res|
        invariant 0 <= i <= |res|
        invariant Relocate(Store(State().Rows(t), details, nextId), res[i..]) == Relocate(st0, res)
        invariant State() == db0.WithRows(t, State().Rows(t)).(details := details, nextId := nextId)
        invariant KeysBelow(details, nextId)
      {
        ghost var before := Store(State().Rows(t), details, nextId);
        var row := res[i];
        var id := InsertModuleDetails(Detail(row.readmeContent, row.moduleDetails));
        SetModuleDetailsId(t, row.id, id);
        assert Store(State().Rows(t), details, nextId) == Step(before, row);
        assert res[i..][0] == row && res[i..][1..] == res[i + 1..];
        assert Relocate(before, res[i..]) == Relocate(Step(before, row), res[i + 1..]);
        i := i + 1;
      }
    }

    // ----- upgrade() and downgrade() -----

    /**
     * One source table's part of `upgrade()`: add the link column, migrate
     * the blobs with the rows read in the order `order`, drop the blob columns.
     */
    method MoveBlobs(t: TableName, order: seq<int>)
      requires detailsTable && t !in linkColumns && t in blobColumns
      requires KeysBelow(details, nextId)
      requires ListsKeys(order, State().Rows(t).Keys)
      modifies this
      ensures var m := Revision.MoveBlobs(Store(old(State()).Rows(t), old(details), old(nextId)), order);
        State() == old(State()).WithRows(t, m.rows).(details := m.details, nextId := m.nextId,
          linkColumns := old(linkColumns) + {t}, blobColumns := old(blobColumns) - {t})
      ensures KeysBelow(details, nextId)
    {
      ghost var st := Store(State().Rows(t), details, nextId);
      AddLinkColumn(t);
      MigrateDataToModuleDetails(t, order);
      DropBlobColumns(t);
      Revision.MoveBlobsCount(st, order);
    }

    /**
     * `upgrade()`, with `mvOrder` and `smOrder` the orders in which the two
     * SELECTs return the rows of `module_version` and `submodule`.
     */
    method Upgrade(mvOrder: seq<int>, smOrder: seq<int>)
      requires AtPreviousRevision(State())
      requires ListsKeys(mvOrder, moduleVersion.Keys)
      requires ListsKeys(smOrder, submodule.Keys)
      modifies this
      ensures State() == Revision.Upgrade(old(State()), mvOrder, smOrder)
    {
      ghost var db := State();
      ghost var mv := Revision.MoveBlobs(Store(db.moduleVersion, map[], 1), mvOrder);
      CreateDetailsTable();
      MoveBlobs(ModuleVersion, mvOrder);
      assert State() == db.(moduleVersion := mv.rows, details := mv.details, nextId := mv.nextId, detailsTable := true,
                            blobColumns := {Submodule}, linkColumns := {ModuleVersion});
      MoveBlobs(Submodule, smOrder);
    }

    /**
     * One source table's part of `downgrade()` as written: add the blob
     * columns, restore them from the detail row with the row's own id, drop
     * the link column.
     */
    method MoveBlobsBackById(t: TableName)
      requires detailsTable && t in linkColumns && t !in blobColumns
      modifies this
      ensures State() == old(State()).WithRows(t, Revision.ClearLinks(Revision.RestoreById(Revision.ClearBlobs(old(State()).Rows(t)), old(details))))
                                      .(blobColumns := old(blobColumns) + {t}, linkColumns := old(linkColumns) - {t})
    {
      AddBlobColumns(t);
      RestoreBlobsById(t);
      DropLinkColumn(t);
    }

    /** The same with the restore correlated through `module_details_id`. */
    method MoveBlobsBackByLink(t: TableName)
      requires detailsTable && t in linkColumns && t !in blobColumns
      modifies this
      ensures State() == old(State()).WithRows(t, Revision.ClearLinks(Revision.RestoreByLink(Revision.ClearBlobs(old(State()).Rows(t)), old(details))))
                                      .(blobColumns := old(blobColumns) + {t}, linkColumns := old(linkColumns) - {t})
    {
      AddBlobColumns(t);
      RestoreBlobsByLink(t);
      DropLinkColumn(t);
    }

    /** `downgrade()` as written: each source row is restored from the detail row with its own id. */
    method Downgrade()
      requires AtThisRevision(State())
      modifies this
      ensures State() == Revision.Downgrade(old(State()))
      ensures AtPreviousRevision(State())
    {
      ghost var db := State();
      MoveBlobsBackById(Submodule);
      MoveBlobsBackById(ModuleVersion);
      DropDetailsTable();
      Revision.DowngradeReadsOwnId(db);
    }

    /** `downgrade()` with the restore correlated through `module_details_id`; it undoes `Upgrade`. */
    method DowngradeThroughLinks()
      requires AtThisRevision(State())
      modifies this
      ensures State() == Revision.DowngradeByLink(old(State()))
      ensures AtPreviousRevision(State())
    {
      ghost var db := State();
      MoveBlobsBackByLink(Submodule);
      MoveBlobsBackByLink(ModuleVersion);
      DropDetailsTable();
      Revision.DowngradeByLinkReadsLink(db);
    }
  }
}
