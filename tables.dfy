/**
 * The tables that revision 47e45e505e22 reads and writes: `module_version`,
 * `submodule` and the `module_details` table it introduces, together with the
 * part of the schema the revision changes (which of those columns exist).
 */
module Tables {
  import opened Wrappers

  /** Content of a binary column (BLOB / MEDIUMBLOB). */
  type Blob = seq<bv8>

  /** The two tables whose blob columns move into `module_details`. */
  datatype TableName = ModuleVersion | Submodule

  /**
   * A row of `module_version` or of `submodule`, keyed by its `id` in the
   * table's map. A column the schema does not (yet, or any more) have holds
   * NULL in every row, see `TableConsistent`.
   */
  datatype Row = Row(
    readmeContent: Option<Blob>,
    moduleDetails: Option<Blob>,
    moduleDetailsId: Option<int>)

  /** A row of `module_details`, keyed by its auto-increment `id`. */
  datatype Detail = Detail(readmeContent: Option<Blob>, terraformDocs: Option<Blob>)

  /** What a correlated subquery yields when no `module_details` row matches. */
  const NullDetail := Detail(None, None)

  /** The two blobs of a source row, as they are stored in `module_details`. */
  function DetailOf(r: Row): Detail {
    Detail(r.readmeContent, r.moduleDetails)
  }

  /**
   * The whole database as far as the revision is concerned: the rows of the
   * three tables, the auto-increment counter of `module_details`, and which
   * of the columns the revision creates or drops currently exist.
   */
  datatype DbState = DbState(
    moduleVersion: map<int, Row>,
    submodule: map<int, Row>,
    details: map<int, Detail>,
    nextId: int,
    detailsTable: bool,
    blobColumns: set<TableName>,
    linkColumns: set<TableName>)
  {
    function Rows(t: TableName): map<int, Row> {
      if t == ModuleVersion then moduleVersion else submodule
    }

    function WithRows(t: TableName, rows: map<int, Row>): DbState {
      if t == ModuleVersion then this.(moduleVersion := rows) else this.(submodule := rows)
    }
  }

  /** Every `module_details` key was handed out before the counter moved past it. */
  predicate KeysBelow(details: map<int, Detail>, nextId: int) {
    forall k :: k in details ==> k < nextId
  }

  /**
   * A source table agrees with its schema: absent columns hold NULL, and a
   * present `module_details_id` is a foreign key into `module_details`.
   */
  predicate TableConsistent(rows: map<int, Row>, hasBlobs: bool, hasLink: bool, details: map<int, Detail>) {
    && (!hasBlobs ==> NoBlobs(rows))
    && (!hasLink ==> NoLinks(rows))
    && (forall k :: k in rows && rows[k].moduleDetailsId.Some? ==> rows[k].moduleDetailsId.value in details)
  }

  /** Both blob columns are NULL in every row. */
  predicate NoBlobs(rows: map<int, Row>) {
    forall k :: k in rows ==> rows[k].readmeContent == None && rows[k].moduleDetails == None
  }

  /** `module_details_id` is NULL in every row. */
  predicate NoLinks(rows: map<int, Row>) {
    forall k :: k in rows ==> rows[k].moduleDetailsId == None
  }

  /** The database agrees with whichever schema its flags describe. */
  predicate Consistent(db: DbState) {
    && KeysBelow(db.details, db.nextId)
    && (!db.detailsTable ==> db.details == map[] && db.linkColumns == {})
    && TableConsistent(db.moduleVersion, ModuleVersion in db.blobColumns, ModuleVersion in db.linkColumns, db.details)
    && TableConsistent(db.submodule, Submodule in db.blobColumns, Submodule in db.linkColumns, db.details)
  }

  /** The schema of the previous revision (a36ffbb6580e): blobs on the source tables, no `module_details`. */
  predicate AtPreviousRevision(db: DbState) {
    && Consistent(db)
    && !db.detailsTable
    && db.blobColumns == {ModuleVersion, Submodule}
    && db.linkColumns == {}
  }

  /** The schema of this revision: blobs live in `module_details`, the source tables link to it. */
  predicate AtThisRevision(db: DbState) {
    && Consistent(db)
    && db.detailsTable
    && db.blobColumns == {}
    && db.linkColumns == {ModuleVersion, Submodule}
  }
}
