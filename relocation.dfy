/**
 * `migrate_data_to_module_details(c, source_table)`: every row of a source
 * table is read, its two blobs are inserted as a new `module_details` row,
 * and the key that insert generated is written into the source row's
 * `module_details_id`. This module gives that loop as a pure fold over the
 * rows the SELECT returned, and proves what it does to the three tables.
 */
module Relocation {
  import opened Wrappers
  import opened Tables

  /** One row of `SELECT id, readme_content, module_details FROM <source>`. */
  datatype Selected = Selected(id: int, readmeContent: Option<Blob>, moduleDetails: Option<Blob>)

  /** What relocating one source table touches: its rows, `module_details` and its counter. */
  datatype Store = Store(rows: map<int, Row>, details: map<int, Detail>, nextId: int)

  /**
   * `order` is an order in which the SELECT may return the table's rows: the
   * query has no ORDER BY, so any order that lists every key exactly once.
   */
  predicate ListsKeys(order: seq<int>, keys: set<int>) {
    && (forall i, j :: 0 <= i < j < |order| ==> order[i] != order[j])
    && (forall i :: 0 <= i < |order| ==> order[i] in keys)
    && (forall k :: k in keys ==> k in order)
  }

  /** An iteration order has as many entries as the table has rows. */
  lemma {:induction false} ListsKeysCount(order: seq<int>, keys: set<int>)
    requires ListsKeys(order, keys)
    ensures |order| == |keys|
  {
    if order == [] {
      assert forall k :: k in keys ==> false;
      assert keys == {};
    } else {
      var rest := keys - {order[0]};
      forall k | k in rest
        ensures k in order[1..]
      {
        var i :| 0 <= i < |order| && order[i] == k;
        assert order[1..][i - 1] == k;
      }
      forall i | 0 <= i < |order[1..]|
        ensures order[1..][i] in rest
      {
        assert order[1..][i] == order[i + 1];
      }
      ListsKeysCount(order[1..], rest);
    }
  }

  /** The result set of the SELECT, read in the given order. */
  function Select(rows: map<int, Row>, order: seq<int>): (res: seq<Selected>)
    requires forall i :: 0 <= i < |order| ==> order[i] in rows
    ensures |res| == |order|
    ensures forall i :: 0 <= i < |order| ==>
      res[i].id == order[i] && Detail(res[i].readmeContent, res[i].moduleDetails) == DetailOf(rows[order[i]])
  {
    seq(|order|, i requires 0 <= i < |order| =>
      Selected(order[i], rows[order[i]].readmeContent, rows[order[i]].moduleDetails))
  }

  /**
   * `SELECT id, ... FROM <source>` has no WHERE and no LIMIT: every row of
   * the table comes back exactly once, whatever the order.
   */
  lemma SelectListsTable(rows: map<int, Row>, order: seq<int>)
    requires ListsKeys(order, rows.Keys)
    ensures Ids(Select(rows, order)) == rows.Keys
    ensures DistinctIds(Select(rows, order))
  {
    var res := Select(rows, order);
    forall k | k in rows.Keys
      ensures k in Ids(res)
    {
      assert k in order;
      var i :| 0 <= i < |order| && order[i] == k;
      assert res[i].id == k;
    }
  }

  /**
   * `UPDATE <source> SET module_details_id=:link WHERE id=:sourceId`: row
   * `sourceId`, if there is one, gets the link and keeps its blobs; every
   * other row is unchanged.
   */
  function SetLink(rows: map<int, Row>, sourceId: int, link: int): (r: map<int, Row>)
    ensures r.Keys == rows.Keys
  {
    if sourceId in rows then rows[sourceId := rows[sourceId].(moduleDetailsId := Some(link))] else rows
  }

  /** The UPDATE changes only `module_details_id`, and only in row `sourceId`. */
  lemma SetLinkTouchesOneRow(rows: map<int, Row>, sourceId: int, link: int)
    ensures sourceId in rows ==> SetLink(rows, sourceId, link)[sourceId] == rows[sourceId].(moduleDetailsId := Some(link))
    ensures forall k :: k in rows && k != sourceId ==> SetLink(rows, sourceId, link)[k] == rows[k]
  {
  }

  /**
   * One pass of the loop: INSERT the row's blobs into `module_details`
   * under the next auto-increment key, then point the source row at it.
   */
  function Step(st: Store, row: Selected): (r: Store)
    ensures r.nextId == st.nextId + 1
    ensures r.rows.Keys == st.rows.Keys
  {
    var id := st.nextId;
    Store(SetLink(st.rows, row.id, id),
          st.details[id := Detail(row.readmeContent, row.moduleDetails)],
          id + 1)
  }

  /**
   * One pass inserts exactly one new detail row, under the counter, holding
   * the row's blobs, and leaves every other detail row alone; in the source
   * table it touches only the row read.
   */
  lemma StepInsertsOne(st: Store, row: Selected)
    ensures var r := Step(st, row);
      && st.nextId in r.details && r.details[st.nextId] == Detail(row.readmeContent, row.moduleDetails)
      && (forall k :: k in r.details <==> k in st.details || k == st.nextId)
      && (forall k :: k in st.details && k != st.nextId ==> r.details[k] == st.details[k])
      && (row.id in st.rows ==> r.rows[row.id] == st.rows[row.id].(moduleDetailsId := Some(st.nextId)))
      && (forall k :: k in st.rows && k != row.id ==> r.rows[k] == st.rows[k])
  {
  }

  /** The loop over the whole result set. */
  function Relocate(st: Store, res: seq<Selected>): (r: Store)
    ensures r.nextId == st.nextId + |res|
    ensures r.rows.Keys == st.rows.Keys
    decreases |res|
  {
    if res == [] then st else Relocate(Step(st, res[0]), res[1..])
  }

  /** The source ids in a result set. */
  function Ids(res: seq<Selected>): set<int> {
    set i | 0 <= i < |res| :: res[i].id
  }

  predicate DistinctIds(res: seq<Selected>) {
    forall i, j :: 0 <= i < j < |res| ==> res[i].id != res[j].id
  }

  /** The i-th row read is stored verbatim, NULLs included, under key `nextId + i`. */
  lemma {:induction false} RelocateInserts(st: Store, res: seq<Selected>)
    ensures forall i :: 0 <= i < |res| ==>
      st.nextId + i in Relocate(st, res).details &&
      Relocate(st, res).details[st.nextId + i] == Detail(res[i].readmeContent, res[i].moduleDetails)
    decreases |res|
  {
    if res != [] {
      var st' := Step(st, res[0]);
      RelocateInserts(st', res[1..]);
      RelocateKeepsBelow(st', res[1..]);
      forall i | 1 <= i < |res|
        ensures st.nextId + i in Relocate(st, res).details
        ensures Relocate(st, res).details[st.nextId + i] == Detail(res[i].readmeContent, res[i].moduleDetails)
      {
        assert res[1..][i - 1] == res[i];
      }
    }
  }

  /**
   * A detail row that already existed below the counter is never overwritten,
   * and the detail keys afterwards are the old ones plus `nextId .. nextId + |res| - 1`.
   */
  lemma {:induction false} RelocateKeepsBelow(st: Store, res: seq<Selected>)
    ensures forall k :: k in st.details && k < st.nextId ==>
      k in Relocate(st, res).details && Relocate(st, res).details[k] == st.details[k]
    ensures forall k :: k in Relocate(st, res).details <==>
      k in st.details || st.nextId <= k < st.nextId + |res|
    decreases |res|
  {
    if res != [] {
      RelocateKeepsBelow(Step(st, res[0]), res[1..]);
    }
  }

  /** Each pass adds exactly one row to `module_details`, since the key it takes is unused. */
  lemma {:induction false} RelocateCount(st: Store, res: seq<Selected>)
    requires KeysBelow(st.details, st.nextId)
    ensures |Relocate(st, res).details| == |st.details| + |res|
    ensures KeysBelow(Relocate(st, res).details, Relocate(st, res).nextId)
    decreases |res|
  {
    if res != [] {
      var st' := Step(st, res[0]);
      assert st.nextId !in st.details;
      assert |st'.details| == |st.details| + 1;
      RelocateCount(st', res[1..]);
    }
  }

  /**
   * The UPDATE of the i-th row read sets that row's `module_details_id` to
   * `nextId + i` and leaves its other columns alone; rows never read are unchanged.
   */
  lemma {:induction false} RelocateLinks(st: Store, res: seq<Selected>)
    requires DistinctIds(res)
    ensures forall i :: 0 <= i < |res| && res[i].id in st.rows ==>
      Relocate(st, res).rows[res[i].id] == st.rows[res[i].id].(moduleDetailsId := Some(st.nextId + i))
    ensures forall k :: k in st.rows && k !in Ids(res) ==> Relocate(st, res).rows[k] == st.rows[k]
    decreases |res|
  {
    if res != [] {
      var st' := Step(st, res[0]);
      var rest := res[1..];
      assert DistinctIds(rest) by {
        forall i, j | 0 <= i < j < |rest| ensures rest[i].id != rest[j].id {
          assert rest[i] == res[i + 1] && rest[j] == res[j + 1];
        }
      }
      RelocateLinks(st', rest);
      assert res[0].id !in Ids(rest) by {
        forall i | 0 <= i < |rest| ensures rest[i].id != res[0].id {
          assert rest[i] == res[i + 1];
        }
      }
      forall i | 1 <= i < |res| && res[i].id in st.rows
        ensures Relocate(st, res).rows[res[i].id] == st.rows[res[i].id].(moduleDetailsId := Some(st.nextId + i))
      {
        assert rest[i - 1] == res[i];
        assert res[i].id != res[0].id;
      }
      forall k | k in st.rows && k !in Ids(res)
        ensures Relocate(st, res).rows[k] == st.rows[k]
      {
        assert k != res[0].id;
        assert k !in Ids(rest) by {
          forall i | 0 <= i < |rest| ensures rest[i].id != k {
            assert rest[i] == res[i + 1];
          }
        }
      }
    }
  }

  /**
   * Relocating a whole table grows `module_details` by exactly the number of
   * rows, under fresh keys `nextId ..`, and leaves the existing detail rows
   * as they were; an empty table changes nothing.
   */
  lemma RelocateTableCount(st: Store, order: seq<int>)
    requires KeysBelow(st.details, st.nextId)
    requires ListsKeys(order, st.rows.Keys)
    ensures var r := Relocate(st, Select(st.rows, order));
      && r.rows.Keys == st.rows.Keys
      && r.nextId == st.nextId + |st.rows|
      && |r.details| == |st.details| + |st.rows|
      && KeysBelow(r.details, r.nextId)
      && (forall k :: k in r.details <==> k in st.details || st.nextId <= k < r.nextId)
      && (forall k :: k in st.details ==> r.details[k] == st.details[k])
      && (st.rows == map[] ==> r == st)
  {
    var res := Select(st.rows, order);
    ListsKeysCount(order, st.rows.Keys);
    RelocateKeepsBelow(st, res);
    RelocateCount(st, res);
    if st.rows == map[] {
      assert res == [];
    }
  }

  /**
   * Relocating a whole table read in the order `order`: row `order[i]` gets
   * the key `nextId + i` in `module_details_id` and nothing else in it
   * changes, and the detail row under that key holds the row's two blobs
   * verbatim.
   */
  lemma RelocateTableRows(st: Store, order: seq<int>)
    requires ListsKeys(order, st.rows.Keys)
    ensures var r := Relocate(st, Select(st.rows, order));
      forall i :: 0 <= i < |order| ==>
        && order[i] in r.rows
        && r.rows[order[i]] == st.rows[order[i]].(moduleDetailsId := Some(st.nextId + i))
        && st.nextId + i in r.details
        && r.details[st.nextId + i] == DetailOf(st.rows[order[i]])
  {
    var res := Select(st.rows, order);
    var r := Relocate(st, res);
    RelocateInserts(st, res);
    SelectListsTable(st.rows, order);
    RelocateLinks(st, res);
    forall i | 0 <= i < |order|
      ensures order[i] in r.rows && r.rows[order[i]] == st.rows[order[i]].(moduleDetailsId := Some(st.nextId + i))
      ensures st.nextId + i in r.details && r.details[st.nextId + i] == DetailOf(st.rows[order[i]])
    {
      assert res[i].id == order[i];
      assert Detail(res[i].readmeContent, res[i].moduleDetails) == DetailOf(st.rows[order[i]]);
    }
  }

  /**
   * The same by key: after relocation every source row refers to a detail
   * row that did not exist before and holds exactly that row's blobs, and
   * no two rows share a detail row.
   */
  lemma RelocateLinksOwnContent(st: Store, order: seq<int>)
    requires KeysBelow(st.details, st.nextId)
    requires ListsKeys(order, st.rows.Keys)
    ensures var r := Relocate(st, Select(st.rows, order));
      && (forall k :: k in st.rows ==>
            && r.rows[k].moduleDetailsId.Some?
            && r.rows[k] == st.rows[k].(moduleDetailsId := r.rows[k].moduleDetailsId)
            && r.rows[k].moduleDetailsId.value !in st.details
            && r.rows[k].moduleDetailsId.value in r.details
            && r.details[r.rows[k].moduleDetailsId.value] == DetailOf(st.rows[k]))
      && (forall k1, k2 :: k1 in st.rows && k2 in st.rows && k1 != k2 ==>
            r.rows[k1].moduleDetailsId != r.rows[k2].moduleDetailsId)
  {
    var r := Relocate(st, Select(st.rows, order));
    RelocateTableCount(st, order);
    RelocateTableRows(st, order);
    forall k | k in st.rows
      ensures exists i :: 0 <= i < |order| && order[i] == k
    {
      assert k in order;
    }
  }
}
