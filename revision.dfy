/**
 * Revision 47e45e505e22, "move common submodule/moduleversion columns to new
 * module_details table": `upgrade()` and `downgrade()` as functions from the
 * database before to the database after, and what the two do to the data.
 */
module Revision {
  import opened Wrappers
  import opened Tables
  import opened Relocation

  /** Every row with both blob columns NULL (a blob column just added or dropped). */
  function ClearBlobs(rows: map<int, Row>): (r: map<int, Row>)
    ensures r.Keys == rows.Keys
    ensures NoBlobs(r)
    ensures forall k :: k in r ==> r[k].moduleDetailsId == rows[k].moduleDetailsId
  {
    map k | k in rows :: rows[k].(readmeContent := None, moduleDetails := None)
  }

  /** Every row with `module_details_id` NULL (the link column just added or dropped). */
  function ClearLinks(rows: map<int, Row>): (r: map<int, Row>)
    ensures r.Keys == rows.Keys
    ensures NoLinks(r)
    ensures forall k :: k in r ==> DetailOf(r[k]) == DetailOf(rows[k])
  {
    map k | k in rows :: rows[k].(moduleDetailsId := None)
  }

  // ----- upgrade() -----

  /**
   * The three statements `upgrade()` issues for one source table, given the
   * table's rows and `module_details`: add the (NULL) link column, relocate
   * the blobs with the rows read in the order `order`, drop the blob columns.
   */
  function MoveBlobs(st: Store, order: seq<int>): (m: Store)
    requires ListsKeys(order, st.rows.Keys)
    ensures m.rows.Keys == st.rows.Keys
    ensures m.nextId == st.nextId + |order|
    ensures NoBlobs(m.rows)
  {
    var linked := ClearLinks(st.rows);
    var r := Relocate(st.(rows := linked), Select(linked, order));
    r.(rows := ClearBlobs(r.rows))
  }

  /**
   * `upgrade()`, with `mvOrder` and `smOrder` the orders in which the two
   * SELECTs return the rows of `module_version` and `submodule`: create
   * `module_details` (empty, its auto-increment key starting at 1), then
   * move the blobs of `module_version`, then those of `submodule`.
   */
  function Upgrade(db: DbState, mvOrder: seq<int>, smOrder: seq<int>): (u: DbState)
    requires ListsKeys(mvOrder, db.moduleVersion.Keys)
    requires ListsKeys(smOrder, db.submodule.Keys)
    ensures u.detailsTable && u.blobColumns == {} && u.linkColumns == {ModuleVersion, Submodule}
    ensures u.moduleVersion.Keys == db.moduleVersion.Keys && u.submodule.Keys == db.submodule.Keys
    ensures NoBlobs(u.moduleVersion) && NoBlobs(u.submodule)
    ensures u.nextId == 1 + |mvOrder| + |smOrder|
  {
    var mv := MoveBlobs(Store(db.moduleVersion, map[], 1), mvOrder);
    var sm := MoveBlobs(Store(db.submodule, mv.details, mv.nextId), smOrder);
    DbState(mv.rows, sm.rows, sm.details, sm.nextId, true, {}, {ModuleVersion, Submodule})
  }

  /**
   * One source table after its part of `upgrade()`: the i-th row read from
   * `orig` is now `Row(NULL, NULL, base + i)` in `rows`, and detail row
   * `base + i` holds its blobs.
   */
  ghost predicate TableMoved(orig: map<int, Row>, order: seq<int>, base: int, rows: map<int, Row>, details: map<int, Detail>) {
    forall i :: 0 <= i < |order| ==>
      && order[i] in orig
      && order[i] in rows
      && rows[order[i]] == Row(None, None, Some(base + i))
      && base + i in details
      && details[base + i] == DetailOf(orig[order[i]])
  }

  /**
   * The blob columns dropped after a relocation `r` of `linked` (the table
   * `orig` with its links cleared): row `order[i]` is left with nothing but
   * its link to detail row `nextId + i`, which holds its former blobs.
   */
  lemma ClearedBlobsMoved(orig: map<int, Row>, order: seq<int>, linked: Store, r: Store)
    requires ListsKeys(order, orig.Keys)
    requires linked.rows.Keys == orig.Keys
    requires forall k :: k in linked.rows ==> DetailOf(linked.rows[k]) == DetailOf(orig[k])
    requires forall i :: 0 <= i < |order| ==>
      && order[i] in r.rows
      && r.rows[order[i]] == linked.rows[order[i]].(moduleDetailsId := Some(linked.nextId + i))
      && linked.nextId + i in r.details
      && r.details[linked.nextId + i] == DetailOf(linked.rows[order[i]])
    ensures TableMoved(orig, order, linked.nextId, ClearBlobs(r.rows), r.details)
  {
    forall i | 0 <= i < |order|
      ensures order[i] in ClearBlobs(r.rows) && ClearBlobs(r.rows)[order[i]] == Row(None, None, Some(linked.nextId + i))
      ensures r.details[linked.nextId + i] == DetailOf(orig[order[i]])
    {
      var k := order[i];
      assert k in linked.rows;
      assert ClearBlobs(r.rows)[k] == r.rows[k].(readmeContent := None, moduleDetails := None);
    }
  }

  /**
   * One table's part of `upgrade()`, row by row: the blob columns are
   * dropped only after the relocation copied them, so the i-th row read
   * ends up with nothing but its link to detail row `nextId + i`, which
   * holds the row's blobs verbatim.
   */
  lemma MoveBlobsRows(st: Store, order: seq<int>)
    requires ListsKeys(order, st.rows.Keys)
    ensures var m := MoveBlobs(st, order); TableMoved(st.rows, order, st.nextId, m.rows, m.details)
  {
    var linked := st.(rows := ClearLinks(st.rows));
    RelocateTableRows(linked, order);
    var r := Relocate(linked, Select(linked.rows, order));
    forall i | 0 <= i < |order|
      ensures order[i] in r.rows && r.rows[order[i]] == linked.rows[order[i]].(moduleDetailsId := Some(linked.nextId + i))
      ensures linked.nextId + i in r.details && r.details[linked.nextId + i] == DetailOf(linked.rows[order[i]])
    {
    }
    ClearedBlobsMoved(st.rows, order, linked, r);
  }

  /**
   * One table's part of `upgrade()` keeps the table's keys and adds exactly
   * one `module_details` row per row of the table, under keys not used
   * before, leaving the existing detail rows as they were.
   */
  lemma MoveBlobsCount(st: Store, order: seq<int>)
    requires KeysBelow(st.details, st.nextId)
    requires ListsKeys(order, st.rows.Keys)
    ensures var m := MoveBlobs(st, order);
      && m.rows.Keys == st.rows.Keys
      && m.nextId == st.nextId + |st.rows|
      && |m.details| == |st.details| + |st.rows|
      && KeysBelow(m.details, m.nextId)
      && (forall id :: id in m.details <==> id in st.details || st.nextId <= id < m.nextId)
      && (forall id :: id in st.details ==> m.details[id] == st.details[id])
  {
    RelocateTableCount(st.(rows := ClearLinks(st.rows)), order);
  }

  /**
   * After its part of `upgrade()` the table agrees with its new schema: no
   * blobs, and a link in every row to an existing `module_details` row.
   */
  lemma MoveBlobsConsistent(st: Store, order: seq<int>)
    requires ListsKeys(order, st.rows.Keys)
    ensures var m := MoveBlobs(st, order);
      && TableConsistent(m.rows, false, true, m.details)
      && (forall k :: k in m.rows ==> m.rows[k].moduleDetailsId.Some?)
  {
    var m := MoveBlobs(st, order);
    MoveBlobsRows(st, order);
    forall k | k in m.rows
      ensures m.rows[k] == Row(None, None, m.rows[k].moduleDetailsId)
      ensures m.rows[k].moduleDetailsId.Some? && m.rows[k].moduleDetailsId.value in m.details
    {
      assert k in order;
      var i :| 0 <= i < |order| && order[i] == k;
    }
  }

  /**
   * Everything one table's part of `upgrade()` does, stated without its
   * steps: `m` is what `MoveBlobs(st, order)` leaves behind.
   */
  ghost predicate Moved(st: Store, order: seq<int>, m: Store) {
    && m.rows.Keys == st.rows.Keys
    && m.nextId == st.nextId + |order|
    && |m.details| == |st.details| + |order|
    && KeysBelow(m.details, m.nextId)
    && (forall id :: id in m.details <==> id in st.details || st.nextId <= id < m.nextId)
    && (forall id :: id in st.details ==> m.details[id] == st.details[id])
    && TableMoved(st.rows, order, st.nextId, m.rows, m.details)
    && TableConsistent(m.rows, false, true, m.details)
  }

  lemma MoveBlobsMoved(st: Store, order: seq<int>)
    requires KeysBelow(st.details, st.nextId)
    requires ListsKeys(order, st.rows.Keys)
    ensures Moved(st, order, MoveBlobs(st, order))
  {
    ListsKeysCount(order, st.rows.Keys);
    MoveBlobsRows(st, order);
    MoveBlobsCount(st, order);
    MoveBlobsConsistent(st, order);
  }

  /**
   * Everything `upgrade()` does, stated without its steps: `u` is what it
   * leaves behind when it reads `module_version` in the order `mvOrder` and
   * `submodule` in the order `smOrder`.
   */
  ghost predicate Upgraded(db: DbState, mvOrder: seq<int>, smOrder: seq<int>, u: DbState) {
    && AtThisRevision(u)
    && u.moduleVersion.Keys == db.moduleVersion.Keys
    && u.submodule.Keys == db.submodule.Keys
    && |u.details| == |db.moduleVersion| + |db.submodule|
    && (forall id :: id in u.details <==> 1 <= id <= |db.moduleVersion| + |db.submodule|)
    && TableMoved(db.moduleVersion, mvOrder, 1, u.moduleVersion, u.details)
    && TableMoved(db.submodule, smOrder, 1 + |db.moduleVersion|, u.submodule, u.details)
  }

  /** The two tables' parts of `upgrade()` leave the schema of this revision and the counts. */
  lemma UpgradedSchema(db: DbState, mvOrder: seq<int>, smOrder: seq<int>, mv: Store, sm: Store, u: DbState)
    requires AtPreviousRevision(db)
    requires ListsKeys(mvOrder, db.moduleVersion.Keys)
    requires ListsKeys(smOrder, db.submodule.Keys)
    requires Moved(Store(db.moduleVersion, map[], 1), mvOrder, mv)
    requires Moved(Store(db.submodule, mv.details, mv.nextId), smOrder, sm)
    requires u == DbState(mv.rows, sm.rows, sm.details, sm.nextId, true, {}, {ModuleVersion, Submodule})
    ensures AtThisRevision(u)
    ensures u.moduleVersion.Keys == db.moduleVersion.Keys
    ensures u.submodule.Keys == db.submodule.Keys
    ensures |u.details| == |db.moduleVersion| + |db.submodule|
    ensures forall id :: id in u.details <==> 1 <= id <= |db.moduleVersion| + |db.submodule|
  {
    ListsKeysCount(mvOrder, db.moduleVersion.Keys);
    ListsKeysCount(smOrder, db.submodule.Keys);
    assert TableConsistent(mv.rows, false, true, sm.details);
  }

  /** The `module_version` part of `upgrade()` survives the `submodule` part. */
  lemma UpgradedModuleVersion(db: DbState, mvOrder: seq<int>, mv: Store, u: DbState)
    requires Moved(Store(db.moduleVersion, map[], 1), mvOrder, mv)
    requires u.moduleVersion == mv.rows
    requires forall id :: id in mv.details ==> id in u.details && u.details[id] == mv.details[id]
    ensures TableMoved(db.moduleVersion, mvOrder, 1, u.moduleVersion, u.details)
  {
  }

  /** The two tables' parts of `upgrade()`, put together. */
  lemma UpgradedFromParts(db: DbState, mvOrder: seq<int>, smOrder: seq<int>, mv: Store, sm: Store, u: DbState)
    requires AtPreviousRevision(db)
    requires ListsKeys(mvOrder, db.moduleVersion.Keys)
    requires ListsKeys(smOrder, db.submodule.Keys)
    requires Moved(Store(db.moduleVersion, map[], 1), mvOrder, mv)
    requires Moved(Store(db.submodule, mv.details, mv.nextId), smOrder, sm)
    requires u == DbState(mv.rows, sm.rows, sm.details, sm.nextId, true, {}, {ModuleVersion, Submodule})
    ensures Upgraded(db, mvOrder, smOrder, u)
  {
    UpgradedSchema(db, mvOrder, smOrder, mv, sm, u);
    UpgradedModuleVersion(db, mvOrder, mv, u);
    ListsKeysCount(mvOrder, db.moduleVersion.Keys);
    assert mv.nextId == 1 + |db.moduleVersion|;
  }

  /**
   * What `upgrade()` does, from the previous revision: the schema becomes
   * that of this revision and every source row is still there;
   * `module_details` holds exactly one row per source row, under the keys
   * 1 .. |module_version| + |submodule|; `module_version` rows take the keys
   * 1 .. |module_version| in the order they were read and `submodule` rows
   * the keys after those; each detail row holds its source row's blobs
   * verbatim, and each source row keeps only its link to that detail row.
   */
  lemma UpgradeOutcome(db: DbState, mvOrder: seq<int>, smOrder: seq<int>)
    requires AtPreviousRevision(db)
    requires ListsKeys(mvOrder, db.moduleVersion.Keys)
    requires ListsKeys(smOrder, db.submodule.Keys)
    ensures Upgraded(db, mvOrder, smOrder, Upgrade(db, mvOrder, smOrder))
  {
    var st1 := Store(db.moduleVersion, map[], 1);
    var mv := MoveBlobs(st1, mvOrder);
    var st2 := Store(db.submodule, mv.details, mv.nextId);
    MoveBlobsMoved(st1, mvOrder);
    MoveBlobsMoved(st2, smOrder);
    UpgradedFromParts(db, mvOrder, smOrder, mv, MoveBlobs(st2, smOrder), Upgrade(db, mvOrder, smOrder));
  }

  // ----- downgrade() -----

  /** `(SELECT ... FROM module_details WHERE id = :id)`: the matching row, or NULLs when there is none. */
  function DetailAt(details: map<int, Detail>, id: int): (d: Detail)
    ensures id in details ==> d == details[id]
    ensures id !in details ==> d == NullDetail
  {
    if id in details then details[id] else NullDetail
  }

  /** Sets a row's blob columns from a detail row, leaving `module_details_id` alone. */
  function WithBlobs(r: Row, d: Detail): Row {
    r.(readmeContent := d.readmeContent, moduleDetails := d.terraformDocs)
  }

  /**
   * The restoring UPDATE of `downgrade()` as written: each row takes the
   * blobs of the `module_details` row whose id equals the row's OWN id.
   */
  function RestoreById(rows: map<int, Row>, details: map<int, Detail>): (r: map<int, Row>)
    ensures r.Keys == rows.Keys
    ensures forall k :: k in r ==>
      DetailOf(r[k]) == DetailAt(details, k) && r[k].moduleDetailsId == rows[k].moduleDetailsId
  {
    map k | k in rows :: WithBlobs(rows[k], DetailAt(details, k))
  }

  /** The detail row a `module_details_id` value refers to, or NULLs for a NULL link. */
  function LinkedDetail(details: map<int, Detail>, link: Option<int>): Detail {
    match link
    case None => NullDetail
    case Some(id) => DetailAt(details, id)
  }

  /** The restoring UPDATE joined through the row's `module_details_id` instead. */
  function RestoreByLink(rows: map<int, Row>, details: map<int, Detail>): (r: map<int, Row>)
    ensures r.Keys == rows.Keys
    ensures forall k :: k in r ==>
      DetailOf(r[k]) == LinkedDetail(details, rows[k].moduleDetailsId) && r[k].moduleDetailsId == rows[k].moduleDetailsId
  {
    map k | k in rows :: WithBlobs(rows[k], LinkedDetail(details, rows[k].moduleDetailsId))
  }

  /**
   * `downgrade()` as written. For `submodule`, then for `module_version`:
   * add the blob columns (NULL), restore them by id, drop the link column;
   * finally drop `module_details`.
   */
  function Downgrade(db: DbState): (d: DbState)
    ensures !d.detailsTable && d.details == map[]
    ensures d.blobColumns == {ModuleVersion, Submodule} && d.linkColumns == {}
    ensures d.moduleVersion.Keys == db.moduleVersion.Keys && d.submodule.Keys == db.submodule.Keys
    ensures NoLinks(d.moduleVersion) && NoLinks(d.submodule)
  {
    var sm := ClearLinks(RestoreById(ClearBlobs(db.submodule), db.details));
    var mv := ClearLinks(RestoreById(ClearBlobs(db.moduleVersion), db.details));
    DbState(mv, sm, map[], db.nextId, false, {ModuleVersion, Submodule}, {})
  }

  /** `downgrade()` with the restore joined through `module_details_id`. */
  function DowngradeByLink(db: DbState): (d: DbState)
    ensures !d.detailsTable && d.details == map[]
    ensures d.blobColumns == {ModuleVersion, Submodule} && d.linkColumns == {}
    ensures d.moduleVersion.Keys == db.moduleVersion.Keys && d.submodule.Keys == db.submodule.Keys
    ensures NoLinks(d.moduleVersion) && NoLinks(d.submodule)
  {
    var sm := ClearLinks(RestoreByLink(ClearBlobs(db.submodule), db.details));
    var mv := ClearLinks(RestoreByLink(ClearBlobs(db.moduleVersion), db.details));
    DbState(mv, sm, map[], db.nextId, false, {ModuleVersion, Submodule}, {})
  }

  // ----- What downgrade() does -----

  /**
   * One source table after the restore of `downgrade()` as written and the
   * drop of its link column: every row of `rows` now holds the blobs of the
   * detail row whose id equals its own id (NULL when there is none).
   */
  ghost predicate TableRestoredById(rows: map<int, Row>, details: map<int, Detail>, restored: map<int, Row>) {
    && restored.Keys == rows.Keys
    && forall k :: k in rows ==> restored[k] == WithBlobs(Row(None, None, None), DetailAt(details, k))
  }

  /** The same for the restore joined through `module_details_id`: the blobs of the detail row the link names. */
  ghost predicate TableRestoredByLink(rows: map<int, Row>, details: map<int, Detail>, restored: map<int, Row>) {
    && restored.Keys == rows.Keys
    && forall k :: k in rows ==> restored[k] == WithBlobs(Row(None, None, None), LinkedDetail(details, rows[k].moduleDetailsId))
  }

  /**
   * What `downgrade()` as written leaves behind, `d`, from `db` at this
   * revision: the schema of the previous revision, with every source row
   * restored by its own id.
   */
  ghost predicate DowngradedAsWritten(db: DbState, d: DbState) {
    && AtPreviousRevision(d)
    && d.details == map[]
    && TableRestoredById(db.moduleVersion, db.details, d.moduleVersion)
    && TableRestoredById(db.submodule, db.details, d.submodule)
  }

  lemma DowngradeReadsOwnId(db: DbState)
    requires AtThisRevision(db)
    ensures DowngradedAsWritten(db, Downgrade(db))
  {
  }

  /** What `downgrade()` with the restore joined through `module_details_id` leaves behind. */
  ghost predicate DowngradedThroughLinks(db: DbState, d: DbState) {
    && AtPreviousRevision(d)
    && d.details == map[]
    && TableRestoredByLink(db.moduleVersion, db.details, d.moduleVersion)
    && TableRestoredByLink(db.submodule, db.details, d.submodule)
  }

  lemma DowngradeByLinkReadsLink(db: DbState)
    requires AtThisRevision(db)
    ensures DowngradedThroughLinks(db, DowngradeByLink(db))
  {
  }
}
