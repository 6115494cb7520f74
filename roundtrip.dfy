/**
 * `downgrade()` after `upgrade()`. The restoring UPDATEs correlate
 * `module_details.id` with the source row's own `id` instead of with its
 * `module_details_id`, so a row gets its blobs back only when the key the
 * relocation allocated to it happens to equal its own id. This module
 * proves that, exhibits two databases on which the round trip fails, and
 * proves that the restore joined through the link undoes `upgrade()`.
 */
module RoundTrip {
  import opened Wrappers
  import opened Tables
  import opened Relocation
  import opened Revision

  // ----- One table at a time -----

  /**
   * One source table through the round trip, restored by own id: `orig` is
   * the table before `upgrade()`, `rows` after it (its i-th row read got
   * detail key `base + i`), and `restored` the table after `downgrade()`.
   * A row whose id equals its detail key gets back exactly what it had.
   */
  lemma TableRestoredWhenIdsAgree(orig: map<int, Row>, order: seq<int>, base: int, rows: map<int, Row>,
                                  details: map<int, Detail>, restored: map<int, Row>)
    requires NoLinks(orig)
    requires TableMoved(orig, order, base, rows, details)
    requires TableRestoredById(rows, details, restored)
    ensures forall i :: 0 <= i < |order| && order[i] == base + i ==>
      order[i] in restored && restored[order[i]] == orig[order[i]]
  {
    forall i | 0 <= i < |order| && order[i] == base + i
      ensures order[i] in restored && restored[order[i]] == orig[order[i]]
    {
      assert DetailAt(details, order[i]) == DetailOf(orig[order[i]]);
    }
  }

  /**
   * The other direction: when no two detail rows are equal and the row's
   * blobs are not both NULL, a row whose id differs from its detail key
   * does not get back what it had: it receives another row's blobs, or
   * NULLs when no detail row has its id.
   */
  lemma TableRestoredOnlyWhenIdsAgree(orig: map<int, Row>, order: seq<int>, base: int, rows: map<int, Row>,
                                      details: map<int, Detail>, restored: map<int, Row>)
    requires forall k :: k in orig ==> DetailOf(orig[k]) != NullDetail
    requires forall id1, id2 :: id1 in details && id2 in details && id1 != id2 ==> details[id1] != details[id2]
    requires TableMoved(orig, order, base, rows, details)
    requires TableRestoredById(rows, details, restored)
    ensures forall i :: 0 <= i < |order| && order[i] != base + i ==>
      order[i] in restored && restored[order[i]] != orig[order[i]]
  {
    forall i | 0 <= i < |order| && order[i] != base + i
      ensures order[i] in restored && restored[order[i]] != orig[order[i]]
    {
      var k := order[i];
      if k in details {
        assert details[k] != details[base + i];
      }
      assert DetailOf(restored[k]) == DetailAt(details, k);
    }
  }

  /**
   * One source table through the round trip, restored through the link:
   * every row gets back exactly what it had, whatever its id.
   */
  lemma TableRestoredThroughLinks(orig: map<int, Row>, order: seq<int>, base: int, rows: map<int, Row>,
                                  details: map<int, Detail>, restored: map<int, Row>)
    requires ListsKeys(order, orig.Keys)
    requires NoLinks(orig)
    requires rows.Keys == orig.Keys
    requires TableMoved(orig, order, base, rows, details)
    requires TableRestoredByLink(rows, details, restored)
    ensures restored == orig
  {
    forall k | k in orig
      ensures restored[k] == orig[k]
    {
      assert k in order;
      var i :| 0 <= i < |order| && order[i] == k;
    }
  }

  // ----- The whole database -----

  /** Every source row holds a different, non-NULL pair of blobs. */
  predicate DistinctContents(db: DbState) {
    && (forall k :: k in db.moduleVersion ==> DetailOf(db.moduleVersion[k]) != NullDetail)
    && (forall k :: k in db.submodule ==> DetailOf(db.submodule[k]) != NullDetail)
    && (forall k1, k2 :: k1 in db.moduleVersion && k2 in db.moduleVersion && k1 != k2 ==>
          DetailOf(db.moduleVersion[k1]) != DetailOf(db.moduleVersion[k2]))
    && (forall k1, k2 :: k1 in db.submodule && k2 in db.submodule && k1 != k2 ==>
          DetailOf(db.submodule[k1]) != DetailOf(db.submodule[k2]))
    && (forall k1, k2 :: k1 in db.moduleVersion && k2 in db.submodule ==>
          DetailOf(db.moduleVersion[k1]) != DetailOf(db.submodule[k2]))
  }

  /**
   * The detail row `upgrade()` writes under key `id`: the blobs of the
   * `id`-th `module_version` row read, then those of the `submodule` rows
   * in the order read, and NULLs for a key it never hands out.
   */
  function AllocatedDetail(db: DbState, mvOrder: seq<int>, smOrder: seq<int>, id: int): Detail {
    var n := |mvOrder|;
    if 1 <= id <= n && mvOrder[id - 1] in db.moduleVersion then
      DetailOf(db.moduleVersion[mvOrder[id - 1]])
    else if n < id <= n + |smOrder| && smOrder[id - 1 - n] in db.submodule then
      DetailOf(db.submodule[smOrder[id - 1 - n]])
    else
      NullDetail
  }

  /** After `upgrade()`, the detail row under any key is the one `AllocatedDetail` names. */
  lemma UpgradedDetailAt(db: DbState, mvOrder: seq<int>, smOrder: seq<int>, u: DbState)
    requires ListsKeys(mvOrder, db.moduleVersion.Keys)
    requires ListsKeys(smOrder, db.submodule.Keys)
    requires Upgraded(db, mvOrder, smOrder, u)
    ensures forall id :: DetailAt(u.details, id) == AllocatedDetail(db, mvOrder, smOrder, id)
  {
    ListsKeysCount(mvOrder, db.moduleVersion.Keys);
    ListsKeysCount(smOrder, db.submodule.Keys);
    var n := |mvOrder|;
    forall id
      ensures DetailAt(u.details, id) == AllocatedDetail(db, mvOrder, smOrder, id)
    {
      if 1 <= id <= n {
        assert u.details[1 + (id - 1)] == DetailOf(db.moduleVersion[mvOrder[id - 1]]);
      } else if n < id <= n + |smOrder| {
        assert u.details[1 + n + (id - 1 - n)] == DetailOf(db.submodule[smOrder[id - 1 - n]]);
      } else {
        assert id !in u.details;
      }
    }
  }

  /**
   * With pairwise distinct contents, `upgrade()` writes pairwise distinct
   * detail rows, none of them all NULL.
   */
  lemma AllocatedDetailsDistinct(db: DbState, mvOrder: seq<int>, smOrder: seq<int>)
    requires ListsKeys(mvOrder, db.moduleVersion.Keys)
    requires ListsKeys(smOrder, db.submodule.Keys)
    requires DistinctContents(db)
    ensures forall id1, id2 :: 1 <= id1 < id2 <= |mvOrder| + |smOrder| ==>
      AllocatedDetail(db, mvOrder, smOrder, id1) != AllocatedDetail(db, mvOrder, smOrder, id2)
  {
    var n := |mvOrder|;
    forall id1, id2 | 1 <= id1 < id2 <= n + |smOrder|
      ensures AllocatedDetail(db, mvOrder, smOrder, id1) != AllocatedDetail(db, mvOrder, smOrder, id2)
    {
      if id2 <= n {
        var k1, k2 := mvOrder[id1 - 1], mvOrder[id2 - 1];
        assert k1 in db.moduleVersion && k2 in db.moduleVersion && k1 != k2;
        assert AllocatedDetail(db, mvOrder, smOrder, id1) == DetailOf(db.moduleVersion[k1]);
        assert AllocatedDetail(db, mvOrder, smOrder, id2) == DetailOf(db.moduleVersion[k2]);
      } else if id1 <= n {
        var k1, k2 := mvOrder[id1 - 1], smOrder[id2 - 1 - n];
        assert k1 in db.moduleVersion && k2 in db.submodule;
        assert AllocatedDetail(db, mvOrder, smOrder, id1) == DetailOf(db.moduleVersion[k1]);
        assert AllocatedDetail(db, mvOrder, smOrder, id2) == DetailOf(db.submodule[k2]);
      } else {
        var k1, k2 := smOrder[id1 - 1 - n], smOrder[id2 - 1 - n];
        assert k1 in db.submodule && k2 in db.submodule && k1 != k2;
        assert AllocatedDetail(db, mvOrder, smOrder, id1) == DetailOf(db.submodule[k1]);
        assert AllocatedDetail(db, mvOrder, smOrder, id2) == DetailOf(db.submodule[k2]);
      }
    }
  }

  /**
   * `upgrade()` copies the blobs verbatim, so when the source rows hold
   * pairwise distinct contents, so do the detail rows.
   */
  lemma UpgradedDetailsDistinct(db: DbState, mvOrder: seq<int>, smOrder: seq<int>, u: DbState)
    requires ListsKeys(mvOrder, db.moduleVersion.Keys)
    requires ListsKeys(smOrder, db.submodule.Keys)
    requires DistinctContents(db)
    requires Upgraded(db, mvOrder, smOrder, u)
    ensures forall id1, id2 :: id1 in u.details && id2 in u.details && id1 != id2 ==> u.details[id1] != u.details[id2]
  {
    UpgradedDetailAt(db, mvOrder, smOrder, u);
    AllocatedDetailsDistinct(db, mvOrder, smOrder);
    ListsKeysCount(mvOrder, db.moduleVersion.Keys);
    ListsKeysCount(smOrder, db.submodule.Keys);
    forall id1, id2 | id1 in u.details && id2 in u.details && id1 != id2
      ensures u.details[id1] != u.details[id2]
    {
      assert DetailAt(u.details, id1) == u.details[id1] && DetailAt(u.details, id2) == u.details[id2];
      if id1 < id2 {
        assert AllocatedDetail(db, mvOrder, smOrder, id1) != AllocatedDetail(db, mvOrder, smOrder, id2);
      } else {
        assert AllocatedDetail(db, mvOrder, smOrder, id2) != AllocatedDetail(db, mvOrder, smOrder, id1);
      }
    }
  }

  /**
   * `d`, the database after `downgrade()` after `upgrade()` of `db`, holds
   * a source row exactly as it was if and only if the detail key allocated
   * to the row equals its own id.
   */
  ghost predicate RestoredIffIdsAgree(db: DbState, mvOrder: seq<int>, smOrder: seq<int>, d: DbState) {
    && (forall i :: 0 <= i < |mvOrder| ==>
          && mvOrder[i] in d.moduleVersion && mvOrder[i] in db.moduleVersion
          && (d.moduleVersion[mvOrder[i]] == db.moduleVersion[mvOrder[i]] <==> mvOrder[i] == 1 + i))
    && (forall j :: 0 <= j < |smOrder| ==>
          && smOrder[j] in d.submodule && smOrder[j] in db.submodule
          && (d.submodule[smOrder[j]] == db.submodule[smOrder[j]] <==> smOrder[j] == 1 + |db.moduleVersion| + j))
  }

  /**
   * `downgrade()` after `upgrade()`, on the states each leaves behind: a row
   * gets back exactly what it had whenever the detail key allocated to it
   * equals its own id; with pairwise distinct, non-NULL contents, only then.
   */
  lemma RestoredExactlyWhenIdsAgree(db: DbState, mvOrder: seq<int>, smOrder: seq<int>, u: DbState, d: DbState)
    requires AtPreviousRevision(db)
    requires ListsKeys(mvOrder, db.moduleVersion.Keys)
    requires ListsKeys(smOrder, db.submodule.Keys)
    requires Upgraded(db, mvOrder, smOrder, u)
    requires DowngradedAsWritten(u, d)
    ensures forall i :: 0 <= i < |mvOrder| && mvOrder[i] == 1 + i ==>
      d.moduleVersion[mvOrder[i]] == db.moduleVersion[mvOrder[i]]
    ensures forall j :: 0 <= j < |smOrder| && smOrder[j] == 1 + |db.moduleVersion| + j ==>
      d.submodule[smOrder[j]] == db.submodule[smOrder[j]]
    ensures DistinctContents(db) ==> RestoredIffIdsAgree(db, mvOrder, smOrder, d)
  {
    assert TableConsistent(db.moduleVersion, true, false, db.details);
    assert TableConsistent(db.submodule, true, false, db.details);
    var n := |db.moduleVersion|;
    TableRestoredWhenIdsAgree(db.moduleVersion, mvOrder, 1, u.moduleVersion, u.details, d.moduleVersion);
    TableRestoredWhenIdsAgree(db.submodule, smOrder, 1 + n, u.submodule, u.details, d.submodule);
    if DistinctContents(db) {
      UpgradedDetailsDistinct(db, mvOrder, smOrder, u);
      TableRestoredOnlyWhenIdsAgree(db.moduleVersion, mvOrder, 1, u.moduleVersion, u.details, d.moduleVersion);
      TableRestoredOnlyWhenIdsAgree(db.submodule, smOrder, 1 + n, u.submodule, u.details, d.submodule);
    }
  }

  /**
   * `downgrade()` after `upgrade()`: the schema is that of the previous
   * revision again, every row is still there, and a row gets back exactly
   * what it had whenever the detail key allocated to it equals its own id.
   */
  lemma RoundTripWhenIdsAgree(db: DbState, mvOrder: seq<int>, smOrder: seq<int>)
    requires AtPreviousRevision(db)
    requires ListsKeys(mvOrder, db.moduleVersion.Keys)
    requires ListsKeys(smOrder, db.submodule.Keys)
    ensures var d := Downgrade(Upgrade(db, mvOrder, smOrder));
      && AtPreviousRevision(d)
      && d.moduleVersion.Keys == db.moduleVersion.Keys
      && d.submodule.Keys == db.submodule.Keys
      && (forall i :: 0 <= i < |mvOrder| && mvOrder[i] == 1 + i ==>
            d.moduleVersion[mvOrder[i]] == db.moduleVersion[mvOrder[i]])
      && (forall j :: 0 <= j < |smOrder| && smOrder[j] == 1 + |db.moduleVersion| + j ==>
            d.submodule[smOrder[j]] == db.submodule[smOrder[j]])
  {
    var u := Upgrade(db, mvOrder, smOrder);
    var d := Downgrade(u);
    UpgradeOutcome(db, mvOrder, smOrder);
    DowngradeReadsOwnId(u);
    RestoredExactlyWhenIdsAgree(db, mvOrder, smOrder, u, d);
  }

  /**
   * When the rows' contents are pairwise distinct and not NULL (so that no
   * coincidence can hide a mix-up), `downgrade()` after `upgrade()` restores
   * a row if and only if the detail key allocated to it equals its own id.
   */
  lemma RoundTripIffIdsAgree(db: DbState, mvOrder: seq<int>, smOrder: seq<int>)
    requires AtPreviousRevision(db)
    requires ListsKeys(mvOrder, db.moduleVersion.Keys)
    requires ListsKeys(smOrder, db.submodule.Keys)
    requires DistinctContents(db)
    ensures RestoredIffIdsAgree(db, mvOrder, smOrder, Downgrade(Upgrade(db, mvOrder, smOrder)))
  {
    var u := Upgrade(db, mvOrder, smOrder);
    var d := Downgrade(u);
    UpgradeOutcome(db, mvOrder, smOrder);
    DowngradeReadsOwnId(u);
    RestoredExactlyWhenIdsAgree(db, mvOrder, smOrder, u, d);
  }

  /**
   * `downgrade()` as written after `upgrade()`, row by row: every source
   * row ends up with the blobs `upgrade()` wrote under a key equal to the
   * row's own id, whichever row they came from, and NULLs when no detail
   * row has that key.
   */
  lemma RoundTripAsWritten(db: DbState, mvOrder: seq<int>, smOrder: seq<int>)
    requires AtPreviousRevision(db)
    requires ListsKeys(mvOrder, db.moduleVersion.Keys)
    requires ListsKeys(smOrder, db.submodule.Keys)
    ensures var d := Downgrade(Upgrade(db, mvOrder, smOrder));
      && AtPreviousRevision(d)
      && d.moduleVersion.Keys == db.moduleVersion.Keys
      && d.submodule.Keys == db.submodule.Keys
      && (forall k :: k in db.moduleVersion ==>
            d.moduleVersion[k] == WithBlobs(Row(None, None, None), AllocatedDetail(db, mvOrder, smOrder, k)))
      && (forall k :: k in db.submodule ==>
            d.submodule[k] == WithBlobs(Row(None, None, None), AllocatedDetail(db, mvOrder, smOrder, k)))
  {
    var u := Upgrade(db, mvOrder, smOrder);
    UpgradeOutcome(db, mvOrder, smOrder);
    DowngradeReadsOwnId(u);
    UpgradedDetailAt(db, mvOrder, smOrder, u);
  }

  /**
   * The usual case the restore gets wrong: both tables number their rows
   * from 1. The `submodule` row 1 is linked to detail row 2, but
   * `downgrade()` gives it the blobs of detail row 1, which came from
   * `module_version` row 1.
   */
  lemma DowngradeSwapsContent()
    ensures var mv := map[1 := Row(Some([1]), Some([2]), None)];
      var sm := map[1 := Row(Some([3]), Some([4]), None)];
      var db := DbState(mv, sm, map[], 1, false, {ModuleVersion, Submodule}, {});
      var d := Downgrade(Upgrade(db, [1], [1]));
      d.submodule[1] == mv[1] && d.submodule[1] != sm[1]
  {
    var mv := map[1 := Row(Some([1]), Some([2]), None)];
    var sm := map[1 := Row(Some([3]), Some([4]), None)];
    var db := DbState(mv, sm, map[], 1, false, {ModuleVersion, Submodule}, {});
    RoundTripAsWritten(db, [1], [1]);
    assert AllocatedDetail(db, [1], [1], 1) == DetailOf(mv[1]);
  }

  /**
   * A row whose id is past the number of detail rows loses its blobs:
   * `module_version` row 7 is linked to detail row 1, and no detail row 7 exists.
   */
  lemma DowngradeLosesContent()
    ensures var mv := map[7 := Row(Some([1]), Some([2]), None)];
      var db := DbState(mv, map[], map[], 1, false, {ModuleVersion, Submodule}, {});
      var d := Downgrade(Upgrade(db, [7], []));
      d.moduleVersion[7] == Row(None, None, None) && d.moduleVersion[7] != mv[7]
  {
    var mv := map[7 := Row(Some([1]), Some([2]), None)];
    var db := DbState(mv, map[], map[], 1, false, {ModuleVersion, Submodule}, {});
    RoundTripAsWritten(db, [7], []);
    assert AllocatedDetail(db, [7], [], 7) == NullDetail;
  }

  /** The restore joined through the links undoes `upgrade()`, on the states each leaves behind. */
  lemma RestoredThroughLinks(db: DbState, mvOrder: seq<int>, smOrder: seq<int>, u: DbState, d: DbState)
    requires AtPreviousRevision(db)
    requires ListsKeys(mvOrder, db.moduleVersion.Keys)
    requires ListsKeys(smOrder, db.submodule.Keys)
    requires Upgraded(db, mvOrder, smOrder, u)
    requires DowngradedThroughLinks(u, d)
    ensures d == db.(nextId := d.nextId)
  {
    assert TableConsistent(db.moduleVersion, true, false, db.details);
    assert TableConsistent(db.submodule, true, false, db.details);
    TableRestoredThroughLinks(db.moduleVersion, mvOrder, 1, u.moduleVersion, u.details, d.moduleVersion);
    TableRestoredThroughLinks(db.submodule, smOrder, 1 + |db.moduleVersion|, u.submodule, u.details, d.submodule);
  }

  /**
   * The corrected restore, joined through `module_details_id`, undoes
   * `upgrade()` exactly, whatever the ids and the read orders: every table,
   * column and value is as before (the auto-increment counter aside, which
   * belongs to the dropped table).
   */
  lemma DowngradeByLinkRoundTrip(db: DbState, mvOrder: seq<int>, smOrder: seq<int>)
    requires AtPreviousRevision(db)
    requires ListsKeys(mvOrder, db.moduleVersion.Keys)
    requires ListsKeys(smOrder, db.submodule.Keys)
    ensures var d := DowngradeByLink(Upgrade(db, mvOrder, smOrder));
      d == db.(nextId := d.nextId)
  {
    var u := Upgrade(db, mvOrder, smOrder);
    var d := DowngradeByLink(u);
    UpgradeOutcome(db, mvOrder, smOrder);
    DowngradeByLinkReadsLink(u);
    RestoredThroughLinks(db, mvOrder, smOrder, u, d);
  }
}
