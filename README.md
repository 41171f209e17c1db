# Fake-player admin console: a verified model

The fake-player mod of the game server comes with an administration console. It has three
parts, and this project models all three:

- **`FakeAdminService`** is a service with no state of its own. It builds the list of fake
  players by reconciling the persisted characters of the fake accounts with the live
  registry (`loadAllRows`). It filters that list by a search text (`filter`). It runs the
  bulk lifecycle commands: create players at a point, spawn the pinned offline players at a
  point, despawn the pinned online players, and delete the pinned players from the database
  together with their data and, when nothing is left on it, their account.
- **`FakeTableModel`** holds the rows on display and the set of *pinned* object ids. The
  pinned ids are the selection every bulk command acts on. Pins are kept by id, so they
  survive any change of the displayed rows.
- **`PhantomPanel`** is the console window. The model keeps only its state: the loaded
  rows, the search text, the filtered rows, the current page of ten rows and the
  online/offline counters.

How the parts map to Dafny:

| module | models |
|---|---|
| `Runtime` | The two registries the service changes, held as the two fields of `World`. `FakePlayerManager` is the live players by id. `CharNameTable` is the ids whose names are reserved. |
| `Schema` | The database as a value. |
| `Deletion` | The committed store, as `Database`. A transaction works on a copy and publishes it only when it commits. |
| `FakeTableModel` / `PhantomPanel` | Classes whose methods update their fields, as the source does. |
| `FakeAdminService` | Functions and methods over those values. |

Each loop in the source is a loop proved against a specification function. For example,
`LoadAllRows` returns exactly `Reconciled(...)`, and the lemmas beside `Reconciled` state
what a load promises:

- distinct ids;
- the persisted rows before the live-only ones;
- every live player listed even after a failed query;
- online rows taking their position and state from the live player.

Things the source leaves open become nondeterministic choices:

- the random jitter;
- whether a restore succeeds;
- which JDBC call throws;
- the ids and attributes the player factory hands out.

Things the source takes from outside become parameters:

- the rows the account queries deliver;
- the point where a query throws;
- the order in which the live registry is enumerated;
- the names of the `ClassId` constants.

## Model

| member | source | states |
|---|---|---|
| FakeRows.ResolveClassId | game/data/mods/src/mods/fakeplayer/gui/FakeAdminService.java:89 | The class is null exactly when the raw value is outside `[0, VALUES.length)`; otherwise it is the constant of that ordinal. |
| Reconciler.LinkedRows.Put | game/data/mods/src/mods/fakeplayer/gui/FakeAdminService.java:104 | A `LinkedHashMap.put` keeps the keys distinct and the key list equal to the map's domain. |
| FakeRows.RowOfRecord | game/data/mods/src/mods/fakeplayer/gui/FakeAdminService.java:89-104 | A persisted row takes id, name and level from the character row, with a null class iff the raw value is out of range. It is online iff the id is live. Position and state come from the live player then, and from the stored row with "OFFLINE" otherwise. |
| FakeRows.RowOfLive | game/data/mods/src/mods/fakeplayer/gui/FakeAdminService.java:121 | A live-only row is online and takes every field from the live player. |
| Reconciler.LinkedRows.Values | game/data/mods/src/mods/fakeplayer/gui/FakeAdminService.java:124 | `values()` lists one value per key, in key order, and every value of the map appears. |
| Reconciler.FirstOccurrences | game/data/mods/src/mods/fakeplayer/gui/FakeAdminService.java:64-105 | The key order of repeated puts has no duplicates and holds every id put. |
| Reconciler.LiveOnly | game/data/mods/src/mods/fakeplayer/gui/FakeAdminService.java:116-122 | The ids added after the queries are exactly the live ids with no persisted row. They are distinct when the registry enumeration is. |
| Reconciler.LastRecord | game/data/mods/src/mods/fakeplayer/gui/FakeAdminService.java:104 | The record that survives for an id is a delivered record with that id, and no later record carries the id: the last `put` wins. |
| Reconciler.Reconciled | game/data/mods/src/mods/fakeplayer/gui/FakeAdminService.java:62-125 | A load returns one row per key of the map, in key order, each carrying its key as object id. |
| Reconciler.ReadPersisted | game/data/mods/src/mods/fakeplayer/gui/FakeAdminService.java:66-113 | The nested result-set loops leave the map holding exactly the rows read before any failure, with the last record winning for each id. |
| Reconciler.ReadAccount | game/data/mods/src/mods/fakeplayer/gui/FakeAdminService.java:72-107 | The inner result-set loop over one account puts each row it reads. It stops exactly at the row where the reading fails, and otherwise reads every row of the account. |
| Reconciler.ReadRow | game/data/mods/src/mods/fakeplayer/gui/FakeAdminService.java:80-104 | One character row becomes the row of its record: the live player's position and action when it is live, the stored ones and "OFFLINE" otherwise. |
| Reconciler.LoadAllRows | game/data/mods/src/mods/fakeplayer/gui/FakeAdminService.java:62-125 | The rows returned are exactly the reconciliation of the rows read (up to the failure) with the live registry. |
| Reconciler.ReconciledIds | game/data/mods/src/mods/fakeplayer/gui/FakeAdminService.java:64-124 | The ids of a load are the persisted ids in order of first delivery, then the live-only ids in registry order. |
| Reconciler.ReconciledDistinct | game/data/mods/src/mods/fakeplayer/gui/FakeAdminService.java:64-124 | No object id appears on two rows. |
| Reconciler.ReconciledPersistedFirst | game/data/mods/src/mods/fakeplayer/gui/FakeAdminService.java:64-122 | Every persisted row comes before every live-only row. |
| Reconciler.ReconciledCovers | game/data/mods/src/mods/fakeplayer/gui/FakeAdminService.java:110-122 | A row exists exactly for the ids read and the live ids. Every live player is listed even when a query throws. |
| Reconciler.ReconciledOnline | game/data/mods/src/mods/fakeplayer/gui/FakeAdminService.java:85-104 | A row is online iff its id is live. A live row takes x, y, z and state from the live player. Any other row is "OFFLINE" at the position of its last record. |
| Reconciler.ReconciledRecordFields | game/data/mods/src/mods/fakeplayer/gui/FakeAdminService.java:80-104 | A persisted row takes name and level from its last record. Its class is null iff the raw value is out of range. |
| Reconciler.PartialLoadPrefix | game/data/mods/src/mods/fakeplayer/gui/FakeAdminService.java:110-113 | The persisted ids of a load cut short by an exception are a prefix of those of the complete load. |
| RowFilter.Filter | game/data/mods/src/mods/fakeplayer/gui/FakeAdminService.java:471-490 | An empty source gives nothing. A null or blank text gives the source. Any other text gives the source rows, in order, whose lower-cased name or class name contains the trimmed, lower-cased text. |
| RowFilter.SelectedMembers | game/data/mods/src/mods/fakeplayer/gui/FakeAdminService.java:481-488 | A row is kept iff it is a source row whose name or class name matches. |
| RowFilter.SelectedConcat | game/data/mods/src/mods/fakeplayer/gui/FakeAdminService.java:481-488 | Filtering distributes over concatenation, so the source order is kept. |
| RowFilter.SelectedIdempotent | game/data/mods/src/mods/fakeplayer/gui/FakeAdminService.java:478-488 | Filtering a filtered list again with the same query changes nothing. |
| RowFilter.EmptyQuerySelectsAll | game/data/mods/src/mods/fakeplayer/gui/FakeAdminService.java:478-488 | A text that is not blank but trims to nothing keeps every row. |
| RowFilter.SelectedLength | game/data/mods/src/mods/fakeplayer/gui/FakeAdminService.java:479-489 | The result is never longer than the source. |
| JavaString.TrimIdempotent | game/data/mods/src/mods/fakeplayer/gui/FakeAdminService.java:478 | Trimming the already-trimmed panel text again changes nothing. |
| JavaString.ReplaceChar | game/data/mods/src/mods/fakeplayer/gui/FakeTableModel.java:112 | One-character replace keeps the length, turns every `a` into `b`, and keeps every other character. |
| Lifecycle.Jitter | game/data/mods/src/mods/fakeplayer/gui/FakeAdminService.java:145-153 | z is the base z. x and y are the base's when the radius is at most 0, and within ±radius of it otherwise. |
| Lifecycle.CreateAtPoint | game/data/mods/src/mods/fakeplayer/gui/FakeAdminService.java:128-160 | A null point, a null class or a class without an AI throws before any change, and `count <= 0` returns `[]`. Otherwise there are exactly `count` distinct fresh ids, each of the class and jittered around the point, and earlier players are untouched. |
| Lifecycle.RestoreSingle | game/data/mods/src/mods/fakeplayer/gui/FakeAdminService.java:201-228 | A live id is returned as is. A failed restore changes nothing. A successful one registers the name and the live player. |
| Lifecycle.SpawnPinnedOfflineToPoint | game/data/mods/src/mods/fakeplayer/gui/FakeAdminService.java:163-199 | Empty pins or a null point throw with no change. Otherwise only pinned ids that were not live enter the world, each jittered around the point, and live players are untouched. The count is the number that entered, at most the pin count. |
| Lifecycle.SpawnAll | game/data/mods/src/mods/fakeplayer/gui/FakeAdminService.java:170-198 | The spawn loop: only pinned ids that were not live enter, each within the jitter of the point, and live players are untouched. The count is the number that entered. |
| Lifecycle.SpawnOne | game/data/mods/src/mods/fakeplayer/gui/FakeAdminService.java:175-195 | One loop pass: a live id is skipped. Otherwise it is restored and, when that works, placed within the jitter of the point. |
| Lifecycle.DespawnPinnedOnline | game/data/mods/src/mods/fakeplayer/gui/FakeAdminService.java:231-251 | Empty pins throw with no change. Otherwise the count is the number of pinned ids that were live, the registry loses exactly those, and names are untouched. |
| Runtime.World.Create | game/data/mods/src/mods/fakeplayer/gui/FakeAdminService.java:155 | The factory adds one live player under a positive id no live player had, with the given class and position. |
| Runtime.World.Register | game/data/mods/src/mods/fakeplayer/gui/FakeAdminService.java:211-218 | A restored player joins both registries. |
| Runtime.World.Teleport | game/data/mods/src/mods/fakeplayer/gui/FakeAdminService.java:194 | Only the player's position changes. |
| Runtime.World.Unregister | game/data/mods/src/mods/fakeplayer/gui/FakeAdminService.java:285 | The id's name is freed; the live registry is untouched. |
| Runtime.World.Despawn | game/data/mods/src/mods/fakeplayer/gui/FakeAdminService.java:244-246 | The player leaves the live registry; names are untouched. |
| Schema.GetAccountNameByObjId | game/data/mods/src/mods/fakeplayer/gui/FakeAdminService.java:459-469 | The account name is present exactly when the character row exists, and it is that row's name. |
| Schema.CountCharsByAccount | game/data/mods/src/mods/fakeplayer/gui/FakeAdminService.java:446-457 | The count is 0 exactly when no character belongs to the account. |
| Schema.DeleteAccount | game/data/mods/src/mods/fakeplayer/gui/FakeAdminService.java:437-444 | Only the account row goes; every other account and every other table is kept. |
| DeletionPlan.ApplyStep | game/data/mods/src/mods/fakeplayer/gui/FakeAdminService.java:320-434 | Each statement only deletes, and only rows keyed by the character id (either friend column) or by an item the character owns. `accounts` is never touched. |
| DeletionPlan.PlanOrder | game/data/mods/src/mods/fakeplayer/gui/FakeAdminService.java:320-434 | Nineteen distinct statements. The pets and augmentations of the owned items come before the items, and the character row comes last. |
| DeletionPlan.PlanRemovesCharacterData | game/data/mods/src/mods/fakeplayer/gui/FakeAdminService.java:318-435 | The nineteen statements in their order remove the character's data and nothing else. That data is: its row in each character-keyed table, friend rows on either column, its items, the pets and augmentations of those items, and its character row. |
| DeletionPlan.PlanCoversCharTables | game/data/mods/src/mods/fakeplayer/gui/FakeAdminService.java:327-427 | Each of the fourteen character-id tables has its statement. |
| DeletionPlan.ItemsBeforePetsOrphansPets | game/data/mods/src/mods/fakeplayer/gui/FakeAdminService.java:405-421 | Deleting the items before their pets would leave those pets behind, so the order matters. |
| DeletionPlan.AccountDeletedIffOrphaned | game/data/mods/src/mods/fakeplayer/gui/FakeAdminService.java:302-307 | The account row goes iff no other character is left on it; other accounts are kept. |
| DeletionPlan.AfterDeleteFrame | game/data/mods/src/mods/fakeplayer/gui/FakeAdminService.java:299-307 | After a delete, a row of any table remains iff it is not keyed by the id (or by an item it owned). |
| DeletionPlan.AfterDeleteAllCharacters | game/data/mods/src/mods/fakeplayer/gui/FakeAdminService.java:263-275 | A run of committed deletes removes exactly the characters deleted from `characters`. |
| DeletionPlan.DeleteWithoutDependents | game/data/mods/src/mods/fakeplayer/gui/FakeAdminService.java:299-307 | A character with no dependent rows loses exactly its own row, plus its account row if that was the last character. |
| Deletion.DeleteCharacterData | game/data/mods/src/mods/fakeplayer/gui/FakeAdminService.java:318-435 | When no statement throws, the copy ends with exactly the character's data removed. |
| Deletion.DeleteCharAndMaybeAccount | game/data/mods/src/mods/fakeplayer/gui/FakeAdminService.java:280-316 | A non-positive id, a missing character, an empty account name or an exception each give false with the store unchanged. A positive id is always unregistered. True means the committed store is the character's delete plus the orphan-account rule. |
| Deletion.DeletePinnedDb | game/data/mods/src/mods/fakeplayer/gui/FakeAdminService.java:254-278 | Empty pins throw with no change. Otherwise every pinned player leaves the world and every positive pinned name is freed. Only pinned characters disappear and the others are unchanged. The store is the result of the committed deletes (each the single delete with its orphan-account rule) applied one after the other, in the order they committed. The count is the number of those deletes, at most the pin count. |
| Deletion.DespawnAndDelete | game/data/mods/src/mods/fakeplayer/gui/FakeAdminService.java:263-275 | One loop pass: out of the world if live. When the delete commits, the store becomes the single delete's result; otherwise it is unchanged. |
| DeletionPlan.AfterDeleteCharacters | game/data/mods/src/mods/fakeplayer/gui/FakeAdminService.java:430-434 | A committed delete takes exactly the character's own row out of `characters`. |
| TableModel.FakeTableModel.constructor | game/data/mods/src/mods/fakeplayer/gui/FakeTableModel.java:24-25 | A new model has no rows and no pins. |
| TableModel.FakeTableModel.SetData | game/data/mods/src/mods/fakeplayer/gui/FakeTableModel.java:27-32 | The rows are replaced and the pins stay, including those of ids no longer shown. |
| TableModel.FakeTableModel.GetAt | game/data/mods/src/mods/fakeplayer/gui/FakeTableModel.java:34-39 | Null exactly for an index out of range, otherwise the row at the index. |
| TableModel.FakeTableModel.IsPinned | game/data/mods/src/mods/fakeplayer/gui/FakeTableModel.java:41-44 | True iff the id is pinned, whether or not its row is shown. Pin makes it true and Unpin false. |
| TableModel.FakeTableModel.Pin | game/data/mods/src/mods/fakeplayer/gui/FakeTableModel.java:46-50 | The pins gain the id. Pinning a pinned id changes nothing. The rows are kept. |
| TableModel.FakeTableModel.Unpin | game/data/mods/src/mods/fakeplayer/gui/FakeTableModel.java:52-56 | The pins lose the id. Unpinning an unpinned id changes nothing. The rows are kept. |
| TableModel.FakeTableModel.GetPinnedIds | game/data/mods/src/mods/fakeplayer/gui/FakeTableModel.java:58-61 | The copy equals the pins. |
| TableModel.FakeTableModel.HasPinned | game/data/mods/src/mods/fakeplayer/gui/FakeTableModel.java:63-66 | True iff some id is pinned. |
| TableModel.FakeTableModel.GetPinnedCount | game/data/mods/src/mods/fakeplayer/gui/FakeTableModel.java:153-156 | Zero iff no id is pinned. |
| TableModel.HasPinnedIffCount | game/data/mods/src/mods/fakeplayer/gui/FakeTableModel.java:63-66 | `hasPinned()` holds iff `getPinnedCount() > 0`. |
| TableModel.FakeTableModel.ClearPins | game/data/mods/src/mods/fakeplayer/gui/FakeTableModel.java:158-164 | The pins end empty, and a change is signalled iff there were pins. |
| TableModel.FakeTableModel.SetPinnedForAllRows | game/data/mods/src/mods/fakeplayer/gui/FakeTableModel.java:127-138 | The pins become the old pins plus (or minus) the ids of the displayed rows. A change is signalled iff the pins changed, and the rows are kept. |
| TableModel.FakeTableModel.SetPinnedForIds | game/data/mods/src/mods/fakeplayer/gui/FakeTableModel.java:140-151 | The pins become the old pins plus (or minus) the non-null ids given. A change is signalled iff the pins changed. |
| TableModel.FakeTableModel.SetValueAt | game/data/mods/src/mods/fakeplayer/gui/FakeTableModel.java:166-184 | No change for a column other than 0 or a missing row. Otherwise the row's id is pinned iff the value is Boolean true and unpinned for any other value. |
| TableModel.FakeTableModel.GetValueAt | game/data/mods/src/mods/fakeplayer/gui/FakeTableModel.java:99-119 | Each column's cell: pinned flag, online flag, name, class label, level, state label, and "" past the last column. |
| TableModel.ClassLabel | game/data/mods/src/mods/fakeplayer/gui/FakeTableModel.java:112 | "UNKNOWN" for a null class. Otherwise the class name with every `_` shown as a space and every other character kept. |
| TableModel.StateLabel | game/data/mods/src/mods/fakeplayer/gui/FakeTableModel.java:116 | The state when there is one. Otherwise "ONLINE" iff the row is online, and "OFFLINE" iff it is not. |
| Paging.PageCount | game/data/mods/src/mods/fakeplayer/gui/PhantomPanel.java:299-300 | At least one page. The pages hold all rows, and one page fewer would not. |
| Paging.ClampPage | game/data/mods/src/mods/fakeplayer/gui/PhantomPanel.java:301 | The page lands in range. A page already in range is kept, and a page out of range goes to the nearest end. |
| Paging.PageOf | game/data/mods/src/mods/fakeplayer/gui/PhantomPanel.java:303-305 | The page shown is `filtered[from..to)`, at most ten rows, and empty only when there are no rows. |
| Paging.PagesPrefix | game/data/mods/src/mods/fakeplayer/gui/PhantomPanel.java:299-305 | The first n pages together are the first 10·n rows. |
| Paging.PagesCoverRows | game/data/mods/src/mods/fakeplayer/gui/PhantomPanel.java:299-305 | All pages in order give back the filtered rows exactly. |
| Panel.CountOnline | game/data/mods/src/mods/fakeplayer/gui/PhantomPanel.java:264-273 | The loop counts the online rows. |
| Panel.CountsAddUp | game/data/mods/src/mods/fakeplayer/gui/PhantomPanel.java:264-277 | Online and offline counts add up to the number of rows. |
| Panel.PhantomPanel.constructor | game/data/mods/src/mods/fakeplayer/gui/PhantomPanel.java:35-52 | A new panel has page 0, an empty search text, no rows and an empty table model. |
| Panel.PhantomPanel.GetFilteredIds | game/data/mods/src/mods/fakeplayer/gui/PhantomPanel.java:221-227 | The ids of the filtered rows, in their order. |
| Panel.PhantomPanel.OnSearchChanged | game/data/mods/src/mods/fakeplayer/gui/PhantomPanel.java:253-258 | The text is stored trimmed (null as ""), the page goes back to 0, and the rows are kept. |
| Panel.PhantomPanel.ApplyFilterAndPage | game/data/mods/src/mods/fakeplayer/gui/PhantomPanel.java:295-316 | The filtered rows are the filter of the loaded rows by the text. The page is clamped into range and the table shows that page. The pins are kept. |
| Panel.PhantomPanel.GoToPage | game/data/mods/src/mods/fakeplayer/gui/PhantomPanel.java:309-312 | The page the pager reports, clamped, is shown. The rows, the search text, the pins and the counters are kept. |
| Panel.PhantomPanel.RefreshSafe | game/data/mods/src/mods/fakeplayer/gui/PhantomPanel.java:260-288 | The loaded rows are the reconciled load. The counters show the online and offline rows and add up to the rows loaded, and the search text is kept. The current page is re-clamped into the new page count and shown. |

## Left out

- The Swing widgets, layout, look and feel, the badge renderer and `FakeCommandPanel` are presentation. So are `getRowCount`, `getColumnCount`, `getColumnName`, `getColumnClass` and `isCellEditable`. Change notifications are modelled only as the `changed` results.
- Threads are not modelled: the work posted to the thread pool and to the event thread runs inline, one event at a time. `OnSearchChanged` does not run the follow-up filter; the caller runs `ApplyFilterAndPage` next, as the posted task would.
- `pager.configure` and `cmdPanel.onModelChanged` are calls into code outside this model. `GoToPage` stands for the pager's callback.
- JDBC is reduced to the table contents. The `SELECT` result sets of `loadAllRows` are parameters (`batches`, `failure`). Which call throws `SQLException` is a nondeterministic choice. A failed transaction drops its working copy; the source does not roll back explicitly on exceptions.
- `loadAllRows` logs a warning; logging is left out.
- `LoadAllRows`: the order in which `getFakePlayers()` enumerates the live registry is a parameter, required to list each live id once.
- Lifecycle.RestoreSingle: at game/data/mods/src/mods/fakeplayer/gui/FakeAdminService.java:209-226, `FakePlayer.restore` and the client, spawn and AI set-up are treated as one atomic step. A restore that throws after registering the player is not modelled. In the source such a player stays registered and live, but `spawnPinnedOfflineToPoint` does not count it; in the model a restore either fails with no change or registers a player that is counted.
- Runtime.World.Create: the factory's choice of name, level and action is left open, and nothing is modelled of how it builds the player. Its contract assumes the factory registers nothing in `CharNameTable`; the factory is not part of this model.
- `abortAttack` and `abortCast` change nothing the model records.
- `Rnd.get(-r, r)` is taken to be inclusive at both ends.
- `Math.ceil(total / 10.0)` is written as integer ceiling division, which agrees with it for every `int` total.
- `toLowerCase` is ASCII case folding only.
- `java.lang.String` is a sequence of `char`. Code points outside the Basic Multilingual Plane are not treated specially.
- A null source list, null rows in the table model, and null ids inside a `Set<Integer>` of pins are not modelled. A null set of pins is the same as an empty one; the source rejects both.
- The source hands the list itself back from `filter` and `subList`. Aliasing between those lists is not captured because lists are values here.
- `TableModel.FakeTableModel.GetValueAt` requires the row to exist, because the source's `data.get(row)` throws for any other index.
- Integer width: object ids, levels, coordinates and counts are unbounded. The jitter and the counters cannot overflow for the inputs the console handles.
- Account rows hold only the access level; columns the code never reads are an opaque payload.
