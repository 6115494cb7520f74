# terrareg revision 47e45e505e22 in Dafny

This project models the terrareg Alembic revision `47e45e505e22`, "Move common
submodule/moduleversion columns to new module_details table". The revision
moves the two blob columns `readme_content` and `module_details` out of the
tables `module_version` and `submodule` and into a new table,
`module_details`. Each source row then refers to its detail row through a new
column, `module_details_id`. `downgrade()` moves the blobs back.

The model has two layers.

- **Value layer.** The database is a value `Tables.DbState`. It holds:
  - the rows of the two source tables, as maps from `id`;
  - the rows of `module_details`;
  - the auto-increment counter of `module_details`;
  - which of the columns the revision adds or drops currently exist.

  `migrate_data_to_module_details` is the fold `Relocation.Relocate` over the
  rows its SELECT returns. `upgrade()` and `downgrade()` are the functions
  `Revision.Upgrade` and `Revision.Downgrade`. The proofs are about these
  functions.
- **Statement layer.** `Script.Database` is a class whose fields are the
  tables, the counter and the schema flags. Each SQL statement or
  `batch_alter_table` block is a method that updates those fields in place.
  `MigrateDataToModuleDetails` is the `for row in res` loop with its
  invariants. Each method is proved to leave the state that the value layer
  describes, so the value-layer properties hold of the statements too.

The SELECT in `migrate_data_to_module_details` has no ORDER BY, so the
order in which it returns rows is a parameter. That parameter is a
sequence listing each key exactly once (`Relocation.ListsKeys`), and every
property is proved for every such order.

Adding a column sets it to NULL in every row, and dropping a column discards
its values. In the model both mean clearing that field in every row and
updating the schema flag. `create_table` starts an empty table whose
auto-increment key begins at 1.

Files:
- `wrappers.dfy`: `Option`.
- `tables.dfy`: rows, detail rows, the database value, and the schema
  invariants of the two revisions.
- `relocation.dfy`: the relocation loop as a fold, and what it does.
- `revision.dfy`: `upgrade()`, `downgrade()`, and what each does.
- `roundtrip.dfy`: `downgrade()` after `upgrade()`, including the finding
  below.
- `script.dfy`: the statements and the loop, as methods of a class.

## Model

| member | source | states |
|---|---|---|
| Relocation.ListsKeysCount | terrareg/alembic/versions/47e45e505e22_move_common_submodule_moduleversion_.py:22-23 | The SELECT returns exactly as many rows as the table holds, so the loop runs once per row. |
| Relocation.Select | terrareg/alembic/versions/47e45e505e22_move_common_submodule_moduleversion_.py:22-25 | The i-th row of the result set carries the id of the i-th key read and both of that row's blobs, NULLs included, and there are as many result rows as keys read. |
| Relocation.SelectListsTable | terrareg/alembic/versions/47e45e505e22_move_common_submodule_moduleversion_.py:22 | The SELECT has no WHERE and no LIMIT, so every row of the table comes back exactly once: the ids in the result set are exactly the table's keys, and no id appears twice. |
| Relocation.SetLink | terrareg/alembic/versions/47e45e505e22_move_common_submodule_moduleversion_.py:36-37 | The UPDATE keeps the table's set of rows. |
| Relocation.SetLinkTouchesOneRow | terrareg/alembic/versions/47e45e505e22_move_common_submodule_moduleversion_.py:36-37 | The UPDATE `WHERE id=:source_id` sets `module_details_id` in that row only, leaves its blobs alone, and leaves every other row unchanged. |
| Relocation.Step | terrareg/alembic/versions/47e45e505e22_move_common_submodule_moduleversion_.py:25-37 | One pass of the loop advances the counter by one and keeps the source table's rows. |
| Relocation.StepInsertsOne | terrareg/alembic/versions/47e45e505e22_move_common_submodule_moduleversion_.py:25-37 | One pass inserts exactly one detail row, under the old counter value, holding the row's blobs verbatim. It leaves every other detail row alone and, in the source table, touches only the row read. |
| Relocation.Relocate | terrareg/alembic/versions/47e45e505e22_move_common_submodule_moduleversion_.py:23-37 | The loop advances the counter by one per row read and never adds or removes a source row. |
| Relocation.RelocateInserts | terrareg/alembic/versions/47e45e505e22_move_common_submodule_moduleversion_.py:25-33 | The INSERT of the i-th row read goes in under key `nextId + i` and holds that row's `readme_content` and `module_details` verbatim, NULL passing through as NULL. |
| Relocation.RelocateKeepsBelow | terrareg/alembic/versions/47e45e505e22_move_common_submodule_moduleversion_.py:27-33 | Existing detail rows are never overwritten. The detail keys afterwards are the old keys plus exactly `nextId .. nextId + n - 1`. |
| Relocation.RelocateCount | terrareg/alembic/versions/47e45e505e22_move_common_submodule_moduleversion_.py:27-47 | Each pass adds exactly one detail row, because the auto-increment key it takes is unused. Every key stays below the counter. |
| Relocation.RelocateLinks | terrareg/alembic/versions/47e45e505e22_move_common_submodule_moduleversion_.py:33-37 | The UPDATE sets the i-th row read to `module_details_id = nextId + i` and changes no other column. Rows never read are unchanged. |
| Relocation.RelocateTableCount | terrareg/alembic/versions/47e45e505e22_move_common_submodule_moduleversion_.py:22-37 | A table of n rows adds exactly n detail rows, under fresh keys, and leaves existing detail rows and the source keys as they were. An empty table changes nothing. |
| Relocation.RelocateTableRows | terrareg/alembic/versions/47e45e505e22_move_common_submodule_moduleversion_.py:25-37 | Row `order[i]` gets link `nextId + i` and nothing else in it changes. The detail row under that key holds the row's blobs. |
| Relocation.RelocateLinksOwnContent | terrareg/alembic/versions/47e45e505e22_move_common_submodule_moduleversion_.py:33-47 | Every source row links to a detail row that did not exist before and holds exactly its own blobs. No two source rows share a detail row. |
| Revision.ClearBlobs | terrareg/alembic/versions/47e45e505e22_move_common_submodule_moduleversion_.py:60-62 | Dropping or adding the blob columns keeps every row. Both blobs become NULL in every row, and every row keeps its `module_details_id`. |
| Revision.ClearLinks | terrareg/alembic/versions/47e45e505e22_move_common_submodule_moduleversion_.py:52-54 | Adding or dropping `module_details_id` keeps every row. The link becomes NULL in every row, and every row keeps both blobs. |
| Revision.MoveBlobs | terrareg/alembic/versions/47e45e505e22_move_common_submodule_moduleversion_.py:52-62 | One table's part of `upgrade()` keeps the table's keys, takes one counter value per row read, and leaves no blobs in the table. The rest is in `MoveBlobsRows` and `MoveBlobsCount`. |
| Revision.Upgrade | terrareg/alembic/versions/47e45e505e22_move_common_submodule_moduleversion_.py:40-76 | `upgrade()` leaves the new revision's schema flags and both tables' keys, with no blobs left in either table. It takes one counter value per source row. |
| Revision.ClearedBlobsMoved | terrareg/alembic/versions/47e45e505e22_move_common_submodule_moduleversion_.py:57-62 | Dropping the blob columns after the relocation leaves row `order[i]` as NULL blobs plus its link, and that detail row holds its former blobs. |
| Revision.MoveBlobsRows | terrareg/alembic/versions/47e45e505e22_move_common_submodule_moduleversion_.py:52-62 | `TableMoved`: the blob columns are dropped only after the relocation has copied them. The i-th row read ends up as NULL blobs plus link `nextId + i`, and that detail row holds the row's former blobs. |
| Revision.MoveBlobsCount | terrareg/alembic/versions/47e45e505e22_move_common_submodule_moduleversion_.py:52-62 | One table's part of `upgrade()` keeps the table's keys and adds exactly one detail row per source row, under unused keys. Existing detail rows are unchanged. |
| Revision.MoveBlobsConsistent | terrareg/alembic/versions/47e45e505e22_move_common_submodule_moduleversion_.py:52-62 | Afterwards the table matches its new schema: no blobs, and in every row a non-NULL foreign key to an existing detail row. |
| Revision.MoveBlobsMoved | terrareg/alembic/versions/47e45e505e22_move_common_submodule_moduleversion_.py:52-62 | All of the above, gathered in the predicate `Moved`. |
| Revision.UpgradedSchema | terrareg/alembic/versions/47e45e505e22_move_common_submodule_moduleversion_.py:40-76 | After both tables' parts, the schema is the new revision's. Both tables keep their keys. `module_details` holds exactly the number of `module_version` plus `submodule` rows, under keys 1 to that sum. |
| Revision.UpgradedModuleVersion | terrareg/alembic/versions/47e45e505e22_move_common_submodule_moduleversion_.py:57-71 | Relocating `submodule` does not disturb what `module_version`'s relocation wrote. |
| Revision.UpgradedFromParts | terrareg/alembic/versions/47e45e505e22_move_common_submodule_moduleversion_.py:40-76 | The two parts compose to `Upgraded`. `module_version` rows take keys 1 up to the number of `module_version` rows in read order, and `submodule` rows take the keys after those. |
| Revision.UpgradeOutcome | terrareg/alembic/versions/47e45e505e22_move_common_submodule_moduleversion_.py:40-76 | `upgrade()` reaches the new schema and keeps every source row. It moves every row's blobs verbatim into its own fresh detail row, allocating `module_version` first. |
| Revision.DetailAt | terrareg/alembic/versions/47e45e505e22_move_common_submodule_moduleversion_.py:90-91 | The scalar subquery `(SELECT ... FROM module_details WHERE id=...)` yields the matching detail row, or NULL in both columns when there is none. |
| Revision.RestoreById | terrareg/alembic/versions/47e45e505e22_move_common_submodule_moduleversion_.py:87-92 | The restoring UPDATE as written keeps every row and its link, and sets each row's blobs to those of the detail row whose id equals the row's own id. |
| Revision.RestoreByLink | terrareg/alembic/versions/47e45e505e22_move_common_submodule_moduleversion_.py:87-92 | The corrected UPDATE keeps every row and its link, and sets each row's blobs to those of the detail row its `module_details_id` names. |
| Revision.Downgrade | terrareg/alembic/versions/47e45e505e22_move_common_submodule_moduleversion_.py:79-113 | `downgrade()` as written leaves the previous revision's schema flags, no `module_details` rows, both tables' keys and no link in any row. |
| Revision.DowngradeByLink | terrareg/alembic/versions/47e45e505e22_move_common_submodule_moduleversion_.py:79-113 | The corrected `downgrade()` leaves the same schema, keys and empty `module_details`. |
| Revision.DowngradeReadsOwnId | terrareg/alembic/versions/47e45e505e22_move_common_submodule_moduleversion_.py:79-113 | `downgrade()` returns to the previous schema and drops `module_details`. Each source row gets the blobs of the detail row whose id equals the row's own id, or NULL when there is none. |
| Revision.DowngradeByLinkReadsLink | terrareg/alembic/versions/47e45e505e22_move_common_submodule_moduleversion_.py:87-107 | The corrected `downgrade()` gives each row the blobs of the detail row its `module_details_id` names. |
| RoundTrip.TableRestoredWhenIdsAgree | terrareg/alembic/versions/47e45e505e22_move_common_submodule_moduleversion_.py:87-107 | Per table: a row whose allocated detail key equals its own id gets back exactly what it had. |
| RoundTrip.TableRestoredOnlyWhenIdsAgree | terrareg/alembic/versions/47e45e505e22_move_common_submodule_moduleversion_.py:87-107 | Per table: if detail rows are pairwise distinct and not NULL, a row whose allocated key differs from its id does not get back what it had. |
| RoundTrip.TableRestoredThroughLinks | terrareg/alembic/versions/47e45e505e22_move_common_submodule_moduleversion_.py:87-92 | Per table: the restore joined through the link gives back the whole table unchanged. |
| RoundTrip.UpgradedDetailAt | terrareg/alembic/versions/47e45e505e22_move_common_submodule_moduleversion_.py:57-71 | After `upgrade()`, the detail row under any key is the blobs of the row that key was allocated to (`AllocatedDetail`), or NULL for a key never handed out. |
| RoundTrip.AllocatedDetailsDistinct | terrareg/alembic/versions/47e45e505e22_move_common_submodule_moduleversion_.py:25-33 | With pairwise distinct source contents, the allocated detail rows are pairwise distinct. |
| RoundTrip.UpgradedDetailsDistinct | terrareg/alembic/versions/47e45e505e22_move_common_submodule_moduleversion_.py:25-33 | The blobs are copied verbatim, so distinct source contents give distinct detail rows. |
| RoundTrip.RestoredExactlyWhenIdsAgree | terrareg/alembic/versions/47e45e505e22_move_common_submodule_moduleversion_.py:87-107 | On the states `upgrade()` and `downgrade()` leave: a row is restored whenever its allocated key equals its id. With distinct contents, it is restored only then. |
| RoundTrip.RoundTripWhenIdsAgree | terrareg/alembic/versions/47e45e505e22_move_common_submodule_moduleversion_.py:40-113 | `downgrade(upgrade(db))` has the previous schema and the same keys, and restores every row whose allocated key equals its own id. |
| RoundTrip.RoundTripIffIdsAgree | terrareg/alembic/versions/47e45e505e22_move_common_submodule_moduleversion_.py:40-113 | With distinct, non-NULL contents, `downgrade(upgrade(db))` restores a row if and only if its allocated key equals its own id. |
| RoundTrip.RoundTripAsWritten | terrareg/alembic/versions/47e45e505e22_move_common_submodule_moduleversion_.py:87-107 | After the round trip, every row holds the blobs allocated under a key equal to its own id, whichever row they came from, or NULL. |
| RoundTrip.DowngradeSwapsContent | terrareg/alembic/versions/47e45e505e22_move_common_submodule_moduleversion_.py:87-92 | Counterexample: with `module_version` row 1 and `submodule` row 1, the round trip gives the submodule the module version's blobs. |
| RoundTrip.DowngradeLosesContent | terrareg/alembic/versions/47e45e505e22_move_common_submodule_moduleversion_.py:102-107 | Counterexample: a lone `module_version` row 7 loses its blobs in the round trip, because no detail row 7 exists. |
| RoundTrip.RestoredThroughLinks | terrareg/alembic/versions/47e45e505e22_move_common_submodule_moduleversion_.py:87-107 | The restore joined through the links undoes `upgrade()`, on the states each leaves. |
| RoundTrip.DowngradeByLinkRoundTrip | terrareg/alembic/versions/47e45e505e22_move_common_submodule_moduleversion_.py:40-113 | The corrected `downgrade()` after `upgrade()` gives back every table, column and value as it was, whatever the ids and read orders. |
| Script.Database.constructor | terrareg/alembic/versions/47e45e505e22_move_common_submodule_moduleversion_.py:49 | The database object holds the given state. |
| Script.Database.SetRows | terrareg/alembic/versions/47e45e505e22_move_common_submodule_moduleversion_.py:36-37 | Replaces one source table's rows and nothing else. |
| Script.Database.CreateDetailsTable | terrareg/alembic/versions/47e45e505e22_move_common_submodule_moduleversion_.py:42-48 | `module_details` exists, is empty, and its counter is at 1. Nothing else changes. |
| Script.Database.AddLinkColumn | terrareg/alembic/versions/47e45e505e22_move_common_submodule_moduleversion_.py:52-54 | The link column exists and is NULL in every row of that table. Nothing else changes. |
| Script.Database.DropBlobColumns | terrareg/alembic/versions/47e45e505e22_move_common_submodule_moduleversion_.py:60-62 | The blob columns are gone from that table. Nothing else changes. |
| Script.Database.AddBlobColumns | terrareg/alembic/versions/47e45e505e22_move_common_submodule_moduleversion_.py:81-83 | The blob columns exist and are NULL in every row of that table. |
| Script.Database.DropLinkColumn | terrareg/alembic/versions/47e45e505e22_move_common_submodule_moduleversion_.py:94-96 | The link column is gone from that table. |
| Script.Database.DropDetailsTable | terrareg/alembic/versions/47e45e505e22_move_common_submodule_moduleversion_.py:113 | `module_details` is gone with its rows. |
| Script.Database.InsertModuleDetails | terrareg/alembic/versions/47e45e505e22_move_common_submodule_moduleversion_.py:27-33 | The returned `inserted_primary_key[0]` is the counter's old value and was unused. The row is stored under it and the counter advances. |
| Script.Database.SetModuleDetailsId | terrareg/alembic/versions/47e45e505e22_move_common_submodule_moduleversion_.py:36-37 | Only row `source_id` of that table changes, and only its `module_details_id`. |
| Script.Database.RestoreBlobsById | terrareg/alembic/versions/47e45e505e22_move_common_submodule_moduleversion_.py:87-92 | The restoring UPDATE as written: blobs from the detail row with the row's own id. |
| Script.Database.RestoreBlobsByLink | terrareg/alembic/versions/47e45e505e22_move_common_submodule_moduleversion_.py:87-92 | The corrected UPDATE: blobs from the detail row the link names. |
| Script.Database.MigrateDataToModuleDetails | terrareg/alembic/versions/47e45e505e22_move_common_submodule_moduleversion_.py:18-37 | The loop leaves exactly the state of the fold `Relocate` over the result set, so the Relocation lemmas hold of it. |
| Script.Database.MoveBlobs | terrareg/alembic/versions/47e45e505e22_move_common_submodule_moduleversion_.py:52-76 | One table's three steps leave the state `Revision.MoveBlobs` describes, and the other table is untouched. |
| Script.Database.Upgrade | terrareg/alembic/versions/47e45e505e22_move_common_submodule_moduleversion_.py:40-76 | The statements of `upgrade()` leave exactly `Revision.Upgrade` of the old state. `Revision.UpgradeOutcome` says what that is. |
| Script.Database.MoveBlobsBackById | terrareg/alembic/versions/47e45e505e22_move_common_submodule_moduleversion_.py:81-96 | One table's part of `downgrade()` as written: add the blob columns, restore them by own id, drop the link. |
| Script.Database.MoveBlobsBackByLink | terrareg/alembic/versions/47e45e505e22_move_common_submodule_moduleversion_.py:81-96 | The same with the restore joined through the link. |
| Script.Database.Downgrade | terrareg/alembic/versions/47e45e505e22_move_common_submodule_moduleversion_.py:79-113 | The statements of `downgrade()` leave exactly `Revision.Downgrade` of the old state, at the previous revision's schema. |
| Script.Database.DowngradeThroughLinks | terrareg/alembic/versions/47e45e505e22_move_common_submodule_moduleversion_.py:79-113 | The corrected statements leave `Revision.DowngradeByLink` of the old state, which undoes `upgrade()`. |

## Left out

- DDL machinery: `op.create_table`, `batch_alter_table`, `add_column`, `drop_column`, `create_foreign_key` and `drop_constraint`. Each is modelled only by its effect: a schema flag, and NULL in every row of a new column.
- Column types and dialects: the MySQL `MEDIUMBLOB` variant, the `LargeBinary(length=16777215)` size limit, and the `BLOB`/postgresql variants. A blob is an unbounded byte sequence.
- Foreign-key `ON UPDATE`/`ON DELETE CASCADE` and the constraint names. The revision never updates or deletes a referenced row. The model keeps only the reference invariant (`Tables.TableConsistent`).
- Revision identifiers and chaining (`revision`, `down_revision`), `op.get_bind()`, and the runner's transaction and rollback handling.
- Script.Database.InsertModuleDetails: the model assumes `insert_res.inserted_primary_key[0]` (line 33) is the key the INSERT just generated. The INSERT is a textual statement (lines 27-32), and SQLAlchemy documents `inserted_primary_key` for `insert()` constructs only. If the installed SQLAlchemy raises an error for a textual statement, `upgrade()` aborts on the first row of any non-empty table. That error path is not modelled: SQLAlchemy is not part of this model.
- Cursor streaming: the result set is read as a snapshot taken before the loop. Interleaving of the open cursor with the UPDATEs to the same table is not modelled.
- The order in which the SELECT returns rows is a parameter, since the query has no ORDER BY. Every property holds for every order.
- The other columns of `module_version` and `submodule` are not modelled; the revision neither reads nor writes them.
- The auto-increment counter of a dropped `module_details` is kept in the state but means nothing after `drop_table`. The round-trip lemmas compare everything except that counter.
- Relocation.RelocateTableCount: the number of UPDATEs issued is not counted separately. The loop issues one per row read, and the UPDATE's effect on each row is what `RelocateLinks` states.
- RoundTrip.RoundTripIffIdsAgree: the "only if" direction needs every source row to hold distinct, non-NULL blobs. Without that, two rows with equal content can be swapped by the restore unnoticed, and the restore still yields the original value.
- Script.Database.Upgrade: its `ensures` ties the new state to `Revision.Upgrade`. The schema and data facts about that function are in `Revision.UpgradeOutcome`, not repeated in the method's contract.

## Findings

| source | as written | input that shows it | evidently intended | confidence | as-written member | corrected member |
|---|---|---|---|---|---|---|
| terrareg/alembic/versions/47e45e505e22_move_common_submodule_moduleversion_.py:87-107 | `downgrade()` restores each row from the `module_details` row whose `id` equals the source row's own `id` (`WHERE id=submodule.id`, `WHERE id=module_version.id`). That key is unrelated to the key `upgrade()` allocated to the row. | `module_version` = {1: blobs A}, `submodule` = {1: blobs B}. `upgrade()` stores A under detail 1 and B under detail 2. `downgrade()` gives `submodule` row 1 blobs A, and B is lost. Separately, a lone `module_version` row 7 comes back with NULL blobs. | Restore each row from the detail row its `module_details_id` refers to. Then `downgrade()` after `upgrade()` gives back the original database. | not executed | RoundTrip.DowngradeSwapsContent | RoundTrip.DowngradeByLinkRoundTrip |
