# Smart List, modelled in Dafny

Smart List is an Android shopping/checklist app written in Kotlin over a Room
(SQLite) database. This project models its core:

- the `smartlist` module's data layer: the `list_names`, `items` and
  `master_items` tables and the queries and writes of `ListNameDao`,
  `ItemDao` and `MasterItemDao`;
- the `smartlist` module's lifecycle table for cloned lists
  (`ListStateManager`: PRECHECK, WORKING, CLOSED, ARCHIVED);
- the `smartlist` module's `ListViewModel`: adding, renaming, deleting,
  templating, state changes, unarchiving and cloning of lists. It keeps one
  undo slot per list for rename, delete and state change, and emits one-shot
  UI events. Its `ItemsViewModel` filters one list's items and adds items;
- the `app` module's text-keyed `lists`/`items` tables with soft deletion
  (`ListDao`, `ItemDao`), its `Repository`, and its `ListsViewModel` rename
  dialog;
- the archived app variant's `ItemsViewModel`: the item edit dialog and the
  single and bulk delete, restore and add actions.

The project has one file per Kotlin component:

| file | models |
|---|---|
| `text.dfy` | `trim`/`isBlank`, case-insensitive `contains`, SQLite's `LIKE` and BINARY collation |
| `order.dfy` | the orders the queries return rows in |
| `list_state_manager.dfy` | `ListStateManager` |
| `item_dao.dfy`, `list_name_dao.dfy`, `master_item_dao.dfy` | the `smartlist` DAOs |
| `list_view_model.dfy`, `items_view_model.dfy` | the `smartlist` view models |
| `app_daos.dfy`, `app_repository.dfy`, `app_lists_view_model.dfy` | the `app` module |
| `archive_items_view_model.dfy` | the archived variant's `ItemsViewModel` |

How the model is built:

- A table is a `map` from primary key to row.
  - An AUTOINCREMENT table carries its id counter (`nextId`).
  - `WellNumbered` says every key is non-zero and below the counter.
  - `@Insert(onConflict = IGNORE)` and `REPLACE` are modelled exactly.
- Every query is a function on the tables.
  - Its contract states which rows it returns and in what order.
  - The sorted ones are built by insertion sort, proved sorted and a permutation.
- Every DAO and view model is a `class` whose fields are its tables or its
  state.
  - Each method's `ensures` ties its new state to a step function of the old state.
  - The lemmas prove the promised properties about those step functions.
- A `viewModelScope.launch` block is one atomic step.
- A `SharedFlow` of UI events is the sequence of events emitted so far.
- The clock, `UUID.randomUUID()` and the formatted time stamp of a clone are
  parameters (`now`, `id`, `stamp`).

## Model

| member | source | states |
|---|---|---|
| Text.Trim | smartlist/src/main/java/com/example/smartlist/ui/ListViewModel.kt:68-69 | `trim()`: the result is no longer than the input and neither starts nor ends with whitespace; it is empty exactly when the input is blank, so `trimmed.isBlank()` is `isBlank()` of the untrimmed name |
| Text.TrimIsSlice | smartlist/src/main/java/com/example/smartlist/ui/ListViewModel.kt:68 | the trimmed text is a contiguous slice of the input with only whitespace cut from both ends |
| Text.BlankTrim | smartlist/src/main/java/com/example/smartlist/ui/ListViewModel.kt:108-112 | a text is blank exactly when its trim is empty |
| Text.TrimIdempotent | app/src/main/java/com/example/smartlist/ui/viewmodel/ListsViewModel.kt:54 | trimming twice is trimming once |
| Text.Fold | smartlist/src/main/java/com/example/smartlist/ui/ListViewModel.kt:50 | case folding leaves no capital behind, folds every ASCII letter to a lower-case letter and nothing else to one, and leaves every non-capital as it is |
| Text.FoldIdempotent | smartlist/src/main/java/com/example/smartlist/ui/ListViewModel.kt:50 | folding a folded character changes nothing |
| Text.FoldLetters | smartlist/src/main/java/com/example/smartlist/ui/ListViewModel.kt:50 | two ASCII letters fold alike exactly when they are equal or one is the other's capital (their codes differ by 32) |
| Text.LexLeTotal | smartlist/src/main/java/com/example/smartlist/data/MasterItemDao.kt:15 | the BINARY collation of `ORDER BY content` is total |
| Text.LexLeTransitive | smartlist/src/main/java/com/example/smartlist/data/MasterItemDao.kt:15 | the BINARY collation is transitive |
| Text.LexLeAntisymmetric | smartlist/src/main/java/com/example/smartlist/data/MasterItemDao.kt:15 | two texts that each sort no later than the other are equal |
| Text.LikePercentMatchesAll | smartlist/src/main/java/com/example/smartlist/data/MasterItemDao.kt:14-15 | the pattern `%` matches every text |
| Text.LikePrefix | smartlist/src/main/java/com/example/smartlist/data/MasterItemDao.kt:14-15 | `q%` with a wildcard-free `q` matches exactly the texts that start with `q` up to ASCII case |
| Text.LikeAnyPrefix | smartlist/src/main/java/com/example/smartlist/data/MasterItemDao.kt:14-15 | `%p` matches exactly the texts that have a suffix matching `p` |
| Text.LikeIsContains | smartlist/src/main/java/com/example/smartlist/data/MasterItemDao.kt:14-15 | the substring pattern `%q%` with a wildcard-free `q` is exactly the case-insensitive `contains` |
| Order.MaxKey | smartlist/src/main/java/com/example/smartlist/data/ItemDao.kt:13 | the largest key of a non-empty key set |
| Order.KeysDescending | smartlist/src/main/java/com/example/smartlist/data/ItemDao.kt:13 | `ORDER BY id DESC`: each key once, nothing else, strictly descending |
| Order.InsertString | smartlist/src/main/java/com/example/smartlist/data/MasterItemDao.kt:15 | inserting into a sorted sequence keeps it sorted and adds exactly that text |
| Order.SortStrings | smartlist/src/main/java/com/example/smartlist/data/MasterItemDao.kt:15 | `ORDER BY content`: sorted under the BINARY collation and a permutation of the input |
| Order.InsertByStamp | app/src/main/java/com/example/smartlist/data/db/Daos.kt:8 | inserting into a newest-first sequence keeps it newest first and adds exactly that row |
| Order.SortNewestFirst | app/src/main/java/com/example/smartlist/data/db/Daos.kt:8 | `ORDER BY updatedAt DESC`: newest first and a permutation of the input |
| Order.SameMembers | app/src/main/java/com/example/smartlist/data/db/Daos.kt:8-9 | sorting neither loses nor invents a row: equal multisets have the same members |
| Order.AllOfRearranged | app/src/main/java/com/example/smartlist/data/db/Daos.kt:27-28 | what holds of every row before sorting holds of every row after it |
| ListStateManager.AllowedTargets | smartlist/src/main/java/com/example/smartlist/ui/ListStateManager.kt:41-48 | `allowedTargets`: non-empty exactly for the four known states; every target is a known state other than the current one; at most two targets |
| ListStateManager.IsTransitionAllowed | smartlist/src/main/java/com/example/smartlist/ui/ListStateManager.kt:41-52 | the permitted moves are exactly PRECHECK→WORKING/ARCHIVED, WORKING→CLOSED/ARCHIVED, CLOSED→WORKING/ARCHIVED and ARCHIVED→PRECHECK |
| ListStateManager.DefaultUnarchiveTarget | smartlist/src/main/java/com/example/smartlist/ui/ListStateManager.kt:59 | the unarchive target is the only state ARCHIVED may move to, and that move is permitted |
| ListStateManager.IsEditable | smartlist/src/main/java/com/example/smartlist/ui/ListStateManager.kt:61-69 | a list's items are editable exactly when its state is neither CLOSED nor ARCHIVED, so an unknown state is editable |
| ListStateManager.GetStateInfo | smartlist/src/main/java/com/example/smartlist/ui/ListStateManager.kt:71-73 | the metadata of a known state, and PRECHECK's for any other; always an entry of the table |
| ListStateManager.UnknownStateIsStuck | smartlist/src/main/java/com/example/smartlist/ui/ListStateManager.kt:48-52 | a state missing from the table has no targets and no permitted move |
| ListStateManager.NoSelfTransition | smartlist/src/main/java/com/example/smartlist/ui/ListStateManager.kt:41-52 | no state may move to itself |
| ListStateManager.ArchiveFromEveryActiveState | smartlist/src/main/java/com/example/smartlist/ui/ListStateManager.kt:41-57 | every known state other than ARCHIVED may be archived, and archiving needs confirmation |
| ListStateManager.UnarchiveIsTheOnlyExit | smartlist/src/main/java/com/example/smartlist/ui/ListStateManager.kt:41-59 | ARCHIVED may move only to the unarchive target, and that move needs no confirmation |
| ListStateManager.ConfirmationIgnoresCurrent | smartlist/src/main/java/com/example/smartlist/ui/ListStateManager.kt:54-57 | `requiresConfirmation` depends on the target only, and holds exactly for ARCHIVED |
| Items.InsertIgnore | smartlist/src/main/java/com/example/smartlist/data/ItemDao.kt:19-20 | `insert` with IGNORE: an id already present leaves the table alone and returns -1; otherwise exactly one new row; id 0 takes the counter's value; numbering is preserved |
| Items.GetById | smartlist/src/main/java/com/example/smartlist/data/ItemDao.kt:16-17 | `getById`: null exactly when there is no such row, otherwise that stored row |
| Items.GetContentById | smartlist/src/main/java/com/example/smartlist/data/ItemDao.kt:22-23 | `getContentById`: null exactly when `getById` is, otherwise that row's content |
| Items.RowsByIdDesc | smartlist/src/main/java/com/example/smartlist/data/ItemDao.kt:13 | the rows at a key set, each once, ids strictly descending |
| Items.GetForList | smartlist/src/main/java/com/example/smartlist/data/ItemDao.kt:11-14 | `getForList`: exactly the rows of that list, each once, open items before struck ones, newest first within each group |
| Items.OpenThenStruck | smartlist/src/main/java/com/example/smartlist/data/ItemDao.kt:11-13 | the open rows newest first, followed by the struck rows newest first, are the list's rows in `isStruck ASC, id DESC` order |
| Items.SplitByStruck | smartlist/src/main/java/com/example/smartlist/data/ItemDao.kt:13 | a list's rows are its open rows and its struck rows, with no overlap |
| Items.ItemCount | smartlist/src/main/java/com/example/smartlist/data/ListNameDao.kt:25-31 | `COUNT(i.id)` of the LEFT JOIN: the length of `getForList`, 0 exactly when the list has no item |
| Items.MarkedCount | smartlist/src/main/java/com/example/smartlist/data/ListNameDao.kt:25-31 | the `SUM(CASE …)` of struck items: at most the item count; the rows of `getForList` at positions from the item count less it onwards are exactly the struck ones, so it is the number of struck items; 0 exactly when none is struck, the item count exactly when all are |
| Items.StruckAreLast | smartlist/src/main/java/com/example/smartlist/data/ItemDao.kt:11-14 | in `getForList` order (`isStruck ASC`) a row is struck exactly when it is among the last as many rows as the list has struck items |
| Items.NoneFlagged | smartlist/src/main/java/com/example/smartlist/data/ListNameDao.kt:27 | there are no struck (or open) keys exactly when no row of the list has that flag |
| Items.CountByContent | smartlist/src/main/java/com/example/smartlist/data/ItemDao.kt:31-32 | `countByContent`: at most the list's item count, 0 exactly when no row of the list has that exact content |
| Items.CountByContentExceptId | smartlist/src/main/java/com/example/smartlist/data/ItemDao.kt:34-35 | `countByContentExceptId`: the same count less one exactly when the excluded row is itself such a row |
| Items.ItemDao.constructor | smartlist/src/main/java/com/example/smartlist/data/ItemDao.kt:9-10 | an empty, well-numbered table |
| Items.ItemDao.Insert | smartlist/src/main/java/com/example/smartlist/data/ItemDao.kt:19-20 | the new table and the returned row id are those of `InsertIgnore`; the table stays well numbered |
| Items.ItemDao.SetIsStruck | smartlist/src/main/java/com/example/smartlist/data/ItemDao.kt:28-29 | only that row's flag changes; with no such row nothing changes; the table stays well numbered |
| Items.ItemDao.UpdateContent | smartlist/src/main/java/com/example/smartlist/data/ItemDao.kt:37-38 | only that row's content changes; with no such row nothing changes; the table stays well numbered |
| Items.ItemDao.DeleteById | smartlist/src/main/java/com/example/smartlist/data/ItemDao.kt:25-26 | only that row goes; the counter stays; the table stays well numbered |
| ListNames.InsertIgnore | smartlist/src/main/java/com/example/smartlist/data/ListNameDao.kt:51-52 | `insert` with IGNORE: a present id changes nothing and returns -1; otherwise one new row; id 0 takes the counter's value; a free id below the counter is stored under that id; numbering is preserved |
| ListNames.RowsByIdDesc | smartlist/src/main/java/com/example/smartlist/data/ListNameDao.kt:13 | the rows at a key set, each once, ids strictly descending |
| ListNames.Ordered | smartlist/src/main/java/com/example/smartlist/data/ListNameDao.kt:13 | `ORDER BY isTemplate DESC, id DESC` of a key set: each row once, templates first, newest first within each group |
| ListNames.TemplatesThenOthers | smartlist/src/main/java/com/example/smartlist/data/ListNameDao.kt:11-13 | the templates newest first, followed by the other lists newest first, are in listing order |
| ListNames.GetAll | smartlist/src/main/java/com/example/smartlist/data/ListNameDao.kt:11-14 | `getAll`: exactly the stored lists that are not archived clones, each once, in listing order |
| ListNames.InGetAll | smartlist/src/main/java/com/example/smartlist/data/ListNameDao.kt:12-13 | a list is in `getAll` exactly when it is stored and is not an archived clone |
| ListNames.Search | smartlist/src/main/java/com/example/smartlist/data/ListNameDao.kt:16-19 | `search`: exactly the non-archived-clone lists whose name is LIKE the filter, in listing order |
| ListNames.InSearch | smartlist/src/main/java/com/example/smartlist/data/ListNameDao.kt:16-19 | a list is found exactly when `getAll` has it and its name is LIKE the filter |
| ListNames.ListsOf | smartlist/src/main/java/com/example/smartlist/data/ListNameDao.kt:83-93 | the list columns of a `ListWithCount` projection, position by position |
| ListNames.CountRow | smartlist/src/main/java/com/example/smartlist/data/ListNameDao.kt:25-31 | one grouped row: the list itself, its item count (0 with no items), its struck count, never above the item count |
| ListNames.WithCounts | smartlist/src/main/java/com/example/smartlist/data/ListNameDao.kt:28-31 | the LEFT JOIN … GROUP BY keeps the lists and their order and attaches each list's counts |
| ListNames.GetAllWithCount | smartlist/src/main/java/com/example/smartlist/data/ListNameDao.kt:21-35 | `getAllWithCount`: the rows of `getAll`, in its order, each with its counts |
| ListNames.GetAllWithCountIncludeArchived | smartlist/src/main/java/com/example/smartlist/data/ListNameDao.kt:37-49 | every stored list, archived clones too, each once with its counts, in listing order |
| ListNames.ListingsAgree | smartlist/src/main/java/com/example/smartlist/data/ListNameDao.kt:21-49 | the listing without archived clones holds exactly the rows of the full listing that are not archived clones |
| ListNames.CountByName | smartlist/src/main/java/com/example/smartlist/data/ListNameDao.kt:66-67 | `countByName`: at most the row count, 0 exactly when no row has that exact name |
| ListNames.CountByNameExceptId | smartlist/src/main/java/com/example/smartlist/data/ListNameDao.kt:69-70 | `countByNameExceptId`: one less than `countByName` exactly when the excluded row has the name; 0 exactly when no other row has it |
| ListNames.GetById | smartlist/src/main/java/com/example/smartlist/data/ListNameDao.kt:78-79 | `getById`: null exactly when there is no such row, otherwise that stored row |
| ListNames.GetNameById | smartlist/src/main/java/com/example/smartlist/data/ListNameDao.kt:54-55 | `getNameById`: null exactly when `getById` is, otherwise that row's name |
| ListNames.Renamed | smartlist/src/main/java/com/example/smartlist/data/ListNameDao.kt:72-73 | `updateName`: the same keys; that row's name and nothing else changes; every other row is untouched |
| ListNames.WithState | smartlist/src/main/java/com/example/smartlist/data/ListNameDao.kt:75-76 | `updateState`: only that row's state changes |
| ListNames.WithTemplateFlag | smartlist/src/main/java/com/example/smartlist/data/ListNameDao.kt:60-61 | `setTemplateFlag`: only that row's template flag changes |
| ListNames.WithMasterId | smartlist/src/main/java/com/example/smartlist/data/ListNameDao.kt:63-64 | `setMasterId`: only that row's master changes |
| ListNames.RenameRoundTrip | smartlist/src/main/java/com/example/smartlist/data/ListNameDao.kt:72-73 | writing a row's old name back after a rename restores the table |
| ListNames.StateRoundTrip | smartlist/src/main/java/com/example/smartlist/data/ListNameDao.kt:75-76 | writing a row's old state back after a state change restores the table |
| ListNames.ConfirmationMeansHidden | smartlist/src/main/java/com/example/smartlist/data/ListNameDao.kt:12-13 | for a cloned list and a permitted move, confirmation is asked exactly when the move would hide the list from `getAll` |
| ListNames.ListNameDao.constructor | smartlist/src/main/java/com/example/smartlist/data/ListNameDao.kt:9-10 | an empty, well-numbered table |
| ListNames.ListNameDao.Insert | smartlist/src/main/java/com/example/smartlist/data/ListNameDao.kt:51-52 | the new table and the returned row id are those of `InsertIgnore`; the table stays well numbered |
| ListNames.ListNameDao.DeleteById | smartlist/src/main/java/com/example/smartlist/data/ListNameDao.kt:57-58 | only that row goes; the counter stays; the table stays well numbered |
| ListNames.ListNameDao.UpdateName | smartlist/src/main/java/com/example/smartlist/data/ListNameDao.kt:72-73 | the table becomes `Renamed` of the old one; the table stays well numbered |
| ListNames.ListNameDao.UpdateState | smartlist/src/main/java/com/example/smartlist/data/ListNameDao.kt:75-76 | the table becomes `WithState` of the old one; the table stays well numbered |
| ListNames.ListNameDao.SetTemplateFlag | smartlist/src/main/java/com/example/smartlist/data/ListNameDao.kt:60-61 | the table becomes `WithTemplateFlag` of the old one; the table stays well numbered |
| ListNames.ListNameDao.SetMasterId | smartlist/src/main/java/com/example/smartlist/data/ListNameDao.kt:63-64 | the table becomes `WithMasterId` of the old one; the table stays well numbered |
| MasterItems.InsertIgnore | smartlist/src/main/java/com/example/smartlist/data/MasterItemDao.kt:11-12 | `insert` with IGNORE: a present id changes nothing and returns -1; otherwise one new row; id 0 takes the counter's value; numbering is preserved |
| MasterItems.ContentsAt | smartlist/src/main/java/com/example/smartlist/data/MasterItemDao.kt:15 | the `content` column of the rows at the given keys, in that order |
| MasterItems.MatchingContents | smartlist/src/main/java/com/example/smartlist/data/MasterItemDao.kt:15 | the contents at an enumeration of the matching keys are contents of the table that match, and every matching row's content is among them |
| MasterItems.CountInContents | smartlist/src/main/java/com/example/smartlist/data/MasterItemDao.kt:15 | the contents at an enumeration of distinct keys list each content once per row that holds it |
| MasterItems.SortedMatches | smartlist/src/main/java/com/example/smartlist/data/MasterItemDao.kt:15 | `WHERE content LIKE :filter ORDER BY content`: sorted, each content from the table and matching, none missing, and each content exactly as many times as there are matching rows holding it |
| MasterItems.Search | smartlist/src/main/java/com/example/smartlist/data/MasterItemDao.kt:14-16 | `search`: the first min(matches, 10) entries of the sorted matches, so sorted and all matching, and no matching content left out sorts before a returned one |
| MasterItems.SortedPrefix | smartlist/src/main/java/com/example/smartlist/data/MasterItemDao.kt:15 | `LIMIT` on a sorted result keeps it sorted, keeps only its entries, and everything cut sorts after what is kept |
| MasterItems.CountAll | smartlist/src/main/java/com/example/smartlist/data/MasterItemDao.kt:18-19 | `countAll`: 0 exactly when the table is empty |
| MasterItems.SearchAllIsCapped | smartlist/src/main/java/com/example/smartlist/data/MasterItemDao.kt:14-19 | searching with `%` returns min(`countAll`, 10) contents |
| MasterItems.MasterItemDao.constructor | smartlist/src/main/java/com/example/smartlist/data/MasterItemDao.kt:9-10 | an empty, well-numbered table |
| MasterItems.MasterItemDao.Insert | smartlist/src/main/java/com/example/smartlist/data/MasterItemDao.kt:11-12 | the new table and the returned row id are those of `InsertIgnore`; the table stays well numbered |
| ListUi.Source | smartlist/src/main/java/com/example/smartlist/ui/ListViewModel.kt:45-47 | the listing the screen starts from: stored lists only, archived clones only while the toggle is on, every such list present, in listing order |
| ListUi.FilterByName | smartlist/src/main/java/com/example/smartlist/ui/ListViewModel.kt:50 | `filter { name.contains(q, ignoreCase = true) }`: a row is kept exactly when it was there and its name contains the query, and listing order survives |
| ListUi.ConsInOrder | smartlist/src/main/java/com/example/smartlist/ui/ListViewModel.kt:50 | the head of an ordered listing followed by an ordered subsequence of its tail is ordered |
| ListUi.Visible | smartlist/src/main/java/com/example/smartlist/ui/ListViewModel.kt:45-53 | `items`: with a blank query the whole listing; otherwise exactly its rows whose name contains the query; always in listing order |
| ListUi.CopyItems | smartlist/src/main/java/com/example/smartlist/ui/ListViewModel.kt:287-291 | inserting copies into a well-numbered table: the copies take the next ids in order, each with the source item's content, unstruck, in the new list; old rows stay; numbering is preserved |
| ListUi.CopyKeepsKeysOfList | smartlist/src/main/java/com/example/smartlist/ui/ListViewModel.kt:287-291 | after the copy the list holds no row other than its old rows and the copies |
| ListUi.CopyExtendsKeysOfList | smartlist/src/main/java/com/example/smartlist/ui/ListViewModel.kt:287-291 | after the copy the list holds its old rows and every copy |
| ListUi.CopyItemsCount | smartlist/src/main/java/com/example/smartlist/ui/ListViewModel.kt:287-291 | the list's rows become its old rows plus exactly the copies, so it has one more item per source item |
| ListUi.AddOutcome | smartlist/src/main/java/com/example/smartlist/ui/ListViewModel.kt:67-85 | `add` inserts exactly when the trimmed name is non-blank and no list has it; the new list is a plain list at the next id named by the trimmed name, announced by "List added" and a scroll to the top; a refusal only appends a snackbar; items, undo slots, query and toggle never change |
| ListUi.AddKeepsNamesUnique | smartlist/src/main/java/com/example/smartlist/ui/ListViewModel.kt:75-81 | with unique names before, names stay unique after `add` |
| ListUi.RenameApplies | smartlist/src/main/java/com/example/smartlist/ui/ListViewModel.kt:107-131 | a rename that passes every check writes the trimmed name into that row alone, saves the old name in its rename slot and appends the "List renamed" snackbar with its Undo action; items, the other slots, query and toggle stay as they are |
| ListUi.RenameRefused | smartlist/src/main/java/com/example/smartlist/ui/ListViewModel.kt:107-125 | a blank name, a missing row, a template or a name taken by another list changes no row, no undo slot, not the query and not the toggle, and appends only the snackbar of the first failing check (none for a missing row) |
| ListUi.RenameKeepsNamesUnique | smartlist/src/main/java/com/example/smartlist/ui/ListViewModel.kt:121-130 | with unique names before, names stay unique after `renameList` |
| ListUi.DeleteSparesTemplates | smartlist/src/main/java/com/example/smartlist/ui/ListViewModel.kt:93-99 | deleting a template only emits the refusal snackbar |
| ListUi.RenameSparesTemplates | smartlist/src/main/java/com/example/smartlist/ui/ListViewModel.kt:107-120 | renaming a template only emits a refusal snackbar: the empty-name one first, otherwise the template one |
| ListUi.SetStateSparesTemplates | smartlist/src/main/java/com/example/smartlist/ui/ListViewModel.kt:181-187 | changing a template's state only emits the refusal snackbar |
| ListUi.DeleteApplies | smartlist/src/main/java/com/example/smartlist/ui/ListViewModel.kt:93-105 | deleting a list that is not a template removes that row alone, saves the whole row in its delete slot and appends the "List deleted" snackbar with its Undo action; items, the other slots, query and toggle stay as they are |
| ListUi.DeleteMissingIsNoop | smartlist/src/main/java/com/example/smartlist/ui/ListViewModel.kt:93-96 | deleting an id that is not stored changes nothing, not even the events |
| ListUi.DeleteUndoRoundTrip | smartlist/src/main/java/com/example/smartlist/ui/ListViewModel.kt:89-160 | deleting a non-template list and undoing it gives back the same list table, id, flags, state and master included, and empties the delete slot |
| ListUi.UndoRenameRestores | smartlist/src/main/java/com/example/smartlist/ui/ListViewModel.kt:141-147 | undoing a rename writes the saved name into that row and empties its rename slot |
| ListUi.UndoStateRestores | smartlist/src/main/java/com/example/smartlist/ui/ListViewModel.kt:161-167 | undoing a state change writes the saved state into that row, empties its state slot and leaves the toggle alone |
| ListUi.RenameUndoRoundTrip | smartlist/src/main/java/com/example/smartlist/ui/ListViewModel.kt:107-147 | a permitted rename followed by its undo gives back the list table and empties the rename slot |
| ListUi.StateUndoRoundTrip | smartlist/src/main/java/com/example/smartlist/ui/ListViewModel.kt:161-216 | a permitted move followed by its undo gives back the list table and empties the state slot; the toggle stays on if the move was an archive |
| ListUi.UndoAtMostOnce | smartlist/src/main/java/com/example/smartlist/ui/ListViewModel.kt:138-170 | a rename, delete or state-change undo repeated with the same info does nothing more, not even emit an event |
| ListUi.UndoWithoutBackupIsNoop | smartlist/src/main/java/com/example/smartlist/ui/ListViewModel.kt:138-170 | a rename, delete or state-change undo whose slot for that id is empty, or an undo of an unknown kind, changes nothing at all |
| ListUi.SetStateApplies | smartlist/src/main/java/com/example/smartlist/ui/ListViewModel.kt:181-211 | a permitted move writes the new state into that row alone, really changes the row, saves the old state and appends the "List state set to …" snackbar with its Undo action; archiving also turns the toggle on and appends the "List archived" snackbar with its Show action; items, the other slots and the query stay as they are |
| ListUi.SetStateRefused | smartlist/src/main/java/com/example/smartlist/ui/ListViewModel.kt:181-198 | a move failing any check changes no row, no undo slot, not the query and not the toggle, and appends only the snackbar of the first failing check (none for a missing row) |
| ListUi.ArchivedListStaysInView | smartlist/src/main/java/com/example/smartlist/ui/ListViewModel.kt:205-211 | an archived list leaves `getAll`, yet with a blank query it is still on screen because the toggle is switched on |
| ListUi.UnarchiveOutcome | smartlist/src/main/java/com/example/smartlist/ui/ListViewModel.kt:222-232 | `unarchiveList` is `setState(PRECHECK)` for an archived clone and a refusal snackbar otherwise; a non-template archived clone comes back to `getAll` in PRECHECK |
| ListUi.CloneWrites | smartlist/src/main/java/com/example/smartlist/ui/ListViewModel.kt:274-291 | cloning a template inserts the plain, cloned PRECHECK list "name stamp" pointing at its template, then copies the template's `getForList` items into it |
| ListUi.CloneAddsList | smartlist/src/main/java/com/example/smartlist/ui/ListViewModel.kt:281-284 | the clone is exactly one new row at the next id; numbering is preserved |
| ListUi.CloneCountsItems | smartlist/src/main/java/com/example/smartlist/ui/ListViewModel.kt:286-291 | the clone gains exactly as many items as the template has |
| ListUi.StepsKeepNumbered | smartlist/src/main/java/com/example/smartlist/ui/ListViewModel.kt:67-301 | every operation of the screen keeps both tables numbered as the database numbers them: non-zero ids below the next id |
| ListUi.ListViewModel.constructor | smartlist/src/main/java/com/example/smartlist/ui/ListViewModel.kt:31-91 | over well-numbered DAOs: empty query, toggle off, empty undo slots, no events |
| ListUi.ListViewModel.SetShowArchived | smartlist/src/main/java/com/example/smartlist/ui/ListViewModel.kt:55-57 | only the toggle changes, to the given value |
| ListUi.ListViewModel.SetQuery | smartlist/src/main/java/com/example/smartlist/ui/ListViewModel.kt:61-65 | only the query changes, to the trimmed text |
| ListUi.ListViewModel.Add | smartlist/src/main/java/com/example/smartlist/ui/ListViewModel.kt:67-85 | performs exactly `AddStep` and keeps both tables well numbered |
| ListUi.ListViewModel.DeleteList | smartlist/src/main/java/com/example/smartlist/ui/ListViewModel.kt:93-105 | performs exactly `DeleteStep` (stated by `DeleteApplies`, `DeleteSparesTemplates` and `DeleteMissingIsNoop`) and keeps both tables well numbered |
| ListUi.ListViewModel.RenameList | smartlist/src/main/java/com/example/smartlist/ui/ListViewModel.kt:107-136 | performs exactly `RenameStep` and keeps both tables well numbered |
| ListUi.ListViewModel.HandleUndo | smartlist/src/main/java/com/example/smartlist/ui/ListViewModel.kt:138-170 | performs exactly `UndoStep`, including the `list_add` branch and ignoring unknown kinds, and keeps both tables well numbered |
| ListUi.ListViewModel.SetTemplate | smartlist/src/main/java/com/example/smartlist/ui/ListViewModel.kt:173-178 | only that row's template flag changes, then the matching snackbar is emitted; both tables stay well numbered |
| ListUi.ListViewModel.SetState | smartlist/src/main/java/com/example/smartlist/ui/ListViewModel.kt:181-216 | performs exactly `SetStateStep` and keeps both tables well numbered |
| ListUi.ListViewModel.UnarchiveList | smartlist/src/main/java/com/example/smartlist/ui/ListViewModel.kt:222-232 | performs exactly `UnarchiveStep` and keeps both tables well numbered |
| ListUi.ListViewModel.RequestArchiveConfirmation | smartlist/src/main/java/com/example/smartlist/ui/ListViewModel.kt:239-252 | only the archive prompt for that id is emitted |
| ListUi.ListViewModel.RequestDeleteConfirmation | smartlist/src/main/java/com/example/smartlist/ui/ListViewModel.kt:258-271 | only the delete prompt for that id is emitted |
| ListUi.ListViewModel.CopyInto | smartlist/src/main/java/com/example/smartlist/ui/ListViewModel.kt:287-291 | the insert loop leaves the item table exactly as `CopyItems` says, still well numbered |
| ListUi.ListViewModel.CloneList | smartlist/src/main/java/com/example/smartlist/ui/ListViewModel.kt:274-301 | performs exactly `CloneStep` and keeps both tables well numbered |
| ItemUi.FilterByContent | smartlist/src/main/java/com/example/smartlist/ui/ItemsViewModel.kt:26 | `filter { content.contains(q, ignoreCase = true) }`: keeps only entries that were there and match, and every matching entry |
| ItemUi.FilterKeepsOrder | smartlist/src/main/java/com/example/smartlist/ui/ItemsViewModel.kt:26 | filtering keeps the `isStruck ASC, id DESC` order |
| ItemUi.FilterOfList | smartlist/src/main/java/com/example/smartlist/ui/ItemsViewModel.kt:24-26 | filtering a list's rows keeps exactly its matching rows |
| ItemUi.Shown | smartlist/src/main/java/com/example/smartlist/ui/ItemsViewModel.kt:22-29 | `items`: with a blank query all of `getForList`; otherwise exactly the list's rows whose content contains the query; always in `getForList` order |
| ItemUi.InShown | smartlist/src/main/java/com/example/smartlist/ui/ItemsViewModel.kt:22-29 | an item is shown exactly when it is a row of this list that the query lets through |
| ItemUi.AddedItem | smartlist/src/main/java/com/example/smartlist/ui/ItemsViewModel.kt:33-38 | adding to a well-numbered table stores exactly one new row (next id, this list, that content, not struck); this list's count grows by one, every other list's count stays |
| ItemUi.ItemsViewModel.constructor | smartlist/src/main/java/com/example/smartlist/ui/ItemsViewModel.kt:16-19 | the DAO and list given, an empty query |
| ItemUi.ItemsViewModel.SetQuery | smartlist/src/main/java/com/example/smartlist/ui/ItemsViewModel.kt:31 | the query is stored as given, untrimmed |
| ItemUi.ItemsViewModel.Add | smartlist/src/main/java/com/example/smartlist/ui/ItemsViewModel.kt:33-38 | blank content leaves the table alone; otherwise the content, as given, is inserted into this list with IGNORE; the table stays well numbered |
| AppDb.AllLists | app/src/main/java/com/example/smartlist/data/db/Daos.kt:8 | every row of `lists`, each once |
| AppDb.ObserveLists | app/src/main/java/com/example/smartlist/data/db/Daos.kt:8-22 | `observeLists`/`getAllLists`: every stored list once, none other, most recently updated first |
| AppDb.AllItems | app/src/main/java/com/example/smartlist/data/db/Daos.kt:27 | every row of `items`, each once |
| AppDb.LiveItems | app/src/main/java/com/example/smartlist/data/db/Daos.kt:27 | the list's rows that are not soft-deleted, each once |
| AppDb.ObserveItems | app/src/main/java/com/example/smartlist/data/db/Daos.kt:27-44 | `observeItems`/`getItemsForList`: exactly the list's stored rows that are not deleted, each once, most recently updated first |
| AppDb.InObserveItems | app/src/main/java/com/example/smartlist/data/db/Daos.kt:27-28 | an item is observed for a list exactly when it is a live stored row of that list |
| AppDb.ListUpdated | app/src/main/java/com/example/smartlist/data/db/Daos.kt:17-18 | `@Update`: the same keys; the row with that key takes the new value; with no such row nothing changes |
| AppDb.StoredListUpdateIsNoop | app/src/main/java/com/example/smartlist/data/db/Daos.kt:17-18 | writing back a row exactly as stored leaves the table as it was |
| AppDb.ItemUpdated | app/src/main/java/com/example/smartlist/data/db/Daos.kt:33-34 | `@Update` of an item: the same keys; only that row takes the new value; no row, no change |
| AppDb.SoftDeleted | app/src/main/java/com/example/smartlist/data/db/Daos.kt:36-40 | the named rows stay stored, marked deleted with the new stamp; every other row is untouched |
| AppDb.SoftDeleteHides | app/src/main/java/com/example/smartlist/data/db/Daos.kt:27-40 | after a soft delete a list shows exactly what it showed before minus the ids named |
| AppDb.SoftDeleteManyIsStepwise | app/src/main/java/com/example/smartlist/data/db/Daos.kt:36-40 | soft-deleting one id and then a set is the same as soft-deleting their union at once |
| AppDb.ListDao.constructor | app/src/main/java/com/example/smartlist/data/db/Daos.kt:6-7 | an empty `lists` table |
| AppDb.ListDao.Insert | app/src/main/java/com/example/smartlist/data/db/Daos.kt:11-12 | REPLACE: the row with that id, old or new, becomes the given one |
| AppDb.ListDao.Delete | app/src/main/java/com/example/smartlist/data/db/Daos.kt:14-15 | only the row with that primary key goes |
| AppDb.ListDao.Update | app/src/main/java/com/example/smartlist/data/db/Daos.kt:17-18 | the table becomes `ListUpdated` of the old one |
| AppDb.ItemDao.constructor | app/src/main/java/com/example/smartlist/data/db/Daos.kt:25-26 | an empty `items` table |
| AppDb.ItemDao.Insert | app/src/main/java/com/example/smartlist/data/db/Daos.kt:30-31 | REPLACE: the row with that id, old or new, becomes the given one |
| AppDb.ItemDao.Update | app/src/main/java/com/example/smartlist/data/db/Daos.kt:33-34 | the table becomes `ItemUpdated` of the old one |
| AppDb.ItemDao.SoftDelete | app/src/main/java/com/example/smartlist/data/db/Daos.kt:36-37 | the table becomes `SoftDeleted` of the old one for that one id |
| AppDb.ItemDao.SoftDeleteMany | app/src/main/java/com/example/smartlist/data/db/Daos.kt:39-40 | the table becomes `SoftDeleted` of the old one for the ids named |
| AppRepo.AddItemRows | app/src/main/java/com/example/smartlist/data/repository/Repository.kt:26-48 | `addItem`: blank text leaves the table alone; otherwise exactly one key is added (or replaced), holding the new unchecked, live item; every other row is untouched |
| AppRepo.ToggleTwice | app/src/main/java/com/example/smartlist/data/repository/Repository.kt:50-53 | a toggle flips the flag and changes nothing but the flag and the stamp; toggling twice gives back the item with the later stamp |
| AppRepo.AddedItemObserved | app/src/main/java/com/example/smartlist/data/repository/Repository.kt:26-48 | a non-blank item added to a list is observed in that list |
| AppRepo.AddedItemIsTheOnlyNewRow | app/src/main/java/com/example/smartlist/data/repository/Repository.kt:35-47 | adding a non-blank item grows the list's live rows by exactly the new id |
| AppRepo.BlankIgnoredThenPersisted | archive/app-backup/src/androidTest/java/com/example/smartlist/RepositoryGuardTest.kt:20-40 | on a list with no live items, whitespace text leaves it empty, and "hello" then shows exactly one item, whose text is "hello" |
| AppRepo.DeletedIsHiddenButKept | app/src/main/java/com/example/smartlist/data/repository/Repository.kt:55-57 | a soft-deleted item stays stored, marked deleted with the new stamp, and leaves every listing |
| AppRepo.RestoredIsObserved | app/src/main/java/com/example/smartlist/data/repository/Repository.kt:59-64 | a restored item is observed in its list, whatever the table held before |
| AppRepo.DeleteRestoreRoundTrip | app/src/main/java/com/example/smartlist/data/repository/Repository.kt:55-64 | soft-deleting a live item and then restoring it gives back the table but for that row's stamp |
| AppRepo.Repository.constructor | app/src/main/java/com/example/smartlist/data/repository/Repository.kt:11-14 | the two DAOs given |
| AppRepo.Repository.CreateList | app/src/main/java/com/example/smartlist/data/repository/Repository.kt:17-22 | a new list with the fresh id and title, created and updated at the same clock reading, replaces any row with that id |
| AppRepo.Repository.AddItem | app/src/main/java/com/example/smartlist/data/repository/Repository.kt:26-48 | the item table becomes `AddItemRows` of the old one |
| AppRepo.Repository.ToggleItemChecked | app/src/main/java/com/example/smartlist/data/repository/Repository.kt:50-53 | the toggled copy, stamped now, is written by `@Update` |
| AppRepo.Repository.DeleteItemSoft | app/src/main/java/com/example/smartlist/data/repository/Repository.kt:55-57 | that one item is soft-deleted at the clock reading |
| AppRepo.Repository.RestoreItem | app/src/main/java/com/example/smartlist/data/repository/Repository.kt:59-64 | the live copy, stamped now, replaces whatever row has that id |
| AppRepo.Repository.UpdateList | app/src/main/java/com/example/smartlist/ui/viewmodel/ListsViewModel.kt:57 | `updateList` as `saveEdit` calls it: the list table becomes `ListUpdated` of the old one, the row with that id taking the new value |
| AppRepo.Repository.UpdateItem | archive/app-backup/src/main/java/com/example/smartlist/ui/viewmodel/ItemsViewModel.kt:53 | `updateItem` as `saveEdit` calls it: the item table becomes `ItemUpdated` of the old one |
| AppRepo.Repository.DeleteItemsSoft | archive/app-backup/src/main/java/com/example/smartlist/ui/viewmodel/ItemsViewModel.kt:73 | `deleteItemsSoft` as `deleteItems` calls it: every id named is soft-deleted at the clock reading, in one statement |
| AppListsUi.SaveStep | app/src/main/java/com/example/smartlist/ui/viewmodel/ListsViewModel.kt:52-60 | `saveEdit`: writes nothing exactly when no list is being edited or the title trims to nothing, and then the dialog stays as it is; otherwise writes the edited list with its title replaced by the trimmed field (non-empty, unpadded) and every other field as it was, and closes the dialog |
| AppListsUi.StartThenSave | app/src/main/java/com/example/smartlist/ui/viewmodel/ListsViewModel.kt:39-60 | opening the dialog on a list and saving at once writes the list back with its title trimmed |
| AppListsUi.SaveAgainChangesNothing | app/src/main/java/com/example/smartlist/ui/viewmodel/ListsViewModel.kt:39-60 | reopening the dialog on a list just saved and saving again writes the same row, and that second write changes nothing |
| AppListsUi.ClosedDialogSavesNothing | app/src/main/java/com/example/smartlist/ui/viewmodel/ListsViewModel.kt:48-59 | after a cancel, or after a save went through, saving writes nothing |
| AppListsUi.SaveIsIdempotentOnTitle | app/src/main/java/com/example/smartlist/ui/viewmodel/ListsViewModel.kt:54 | saving an already trimmed title writes the same row as saving the untrimmed one |
| AppListsUi.ListsViewModel.constructor | app/src/main/java/com/example/smartlist/ui/viewmodel/ListsViewModel.kt:33-36 | no list being edited, an empty title field |
| AppListsUi.ListsViewModel.CreateList | app/src/main/java/com/example/smartlist/ui/viewmodel/ListsViewModel.kt:26-30 | the title goes to the repository as it is, unchecked and untrimmed |
| AppListsUi.ListsViewModel.StartEdit | app/src/main/java/com/example/smartlist/ui/viewmodel/ListsViewModel.kt:39-42 | the dialog opens on that list with its current title |
| AppListsUi.ListsViewModel.UpdateEditingTitle | app/src/main/java/com/example/smartlist/ui/viewmodel/ListsViewModel.kt:44-46 | only the field's text changes |
| AppListsUi.ListsViewModel.CancelEdit | app/src/main/java/com/example/smartlist/ui/viewmodel/ListsViewModel.kt:48-50 | the dialog closes and the field keeps its text |
| AppListsUi.ListsViewModel.SaveEdit | app/src/main/java/com/example/smartlist/ui/viewmodel/ListsViewModel.kt:52-60 | the dialog and the list table become what `SaveStep` says |
| ArchiveItemsUi.SaveStep | archive/app-backup/src/main/java/com/example/smartlist/ui/viewmodel/ItemsViewModel.kt:45-56 | `saveEdit`: writes nothing exactly when no item is being edited or the text trims to nothing; otherwise writes the edited item with its text replaced by the trimmed field and the new stamp, every other field as it was, and closes the dialog |
| ArchiveItemsUi.StartThenSave | archive/app-backup/src/main/java/com/example/smartlist/ui/viewmodel/ItemsViewModel.kt:32-56 | opening the dialog on an item and saving at once writes it back trimmed and stamped |
| ArchiveItemsUi.ClosedDialogSavesNothing | archive/app-backup/src/main/java/com/example/smartlist/ui/viewmodel/ItemsViewModel.kt:41-55 | after a cancel, or after a save went through, saving writes nothing |
| ArchiveItemsUi.RestoreAll | archive/app-backup/src/main/java/com/example/smartlist/ui/viewmodel/ItemsViewModel.kt:78-82 | `restoreItems`: every item's id ends up a live row, no row is removed, and rows of other ids are untouched |
| ArchiveItemsUi.RestoreAllKeepsLast | archive/app-backup/src/main/java/com/example/smartlist/ui/viewmodel/ItemsViewModel.kt:78-82 | each restored item is stored as its own restored copy unless a later item of the batch has the same id |
| ArchiveItemsUi.RestoredItemsObserved | archive/app-backup/src/main/java/com/example/smartlist/ui/viewmodel/ItemsViewModel.kt:78-82 | with no id repeated, every restored item is observed again in its list |
| ArchiveItemsUi.ItemsViewModel.constructor | archive/app-backup/src/main/java/com/example/smartlist/ui/viewmodel/ItemsViewModel.kt:17-26 | no item being edited, an empty text field |
| ArchiveItemsUi.ItemsViewModel.Items | archive/app-backup/src/main/java/com/example/smartlist/ui/viewmodel/ItemsViewModel.kt:28-30 | `items(listId)`: exactly the stored items of that list that are not soft-deleted, most recently updated first |
| ArchiveItemsUi.ItemsViewModel.StartEdit | archive/app-backup/src/main/java/com/example/smartlist/ui/viewmodel/ItemsViewModel.kt:32-35 | the dialog opens on that item with its current text |
| ArchiveItemsUi.ItemsViewModel.UpdateEditingText | archive/app-backup/src/main/java/com/example/smartlist/ui/viewmodel/ItemsViewModel.kt:37-39 | only the field's text changes |
| ArchiveItemsUi.ItemsViewModel.CancelEdit | archive/app-backup/src/main/java/com/example/smartlist/ui/viewmodel/ItemsViewModel.kt:41-43 | the dialog closes and the field keeps its text |
| ArchiveItemsUi.ItemsViewModel.SaveEdit | archive/app-backup/src/main/java/com/example/smartlist/ui/viewmodel/ItemsViewModel.kt:45-56 | the dialog and the item table become what `SaveStep` says |
| ArchiveItemsUi.ItemsViewModel.DeleteItem | archive/app-backup/src/main/java/com/example/smartlist/ui/viewmodel/ItemsViewModel.kt:58-62 | that one item is soft-deleted |
| ArchiveItemsUi.ItemsViewModel.RestoreItem | archive/app-backup/src/main/java/com/example/smartlist/ui/viewmodel/ItemsViewModel.kt:64-68 | the live, stamped copy replaces the row with that id |
| ArchiveItemsUi.ItemsViewModel.DeleteItems | archive/app-backup/src/main/java/com/example/smartlist/ui/viewmodel/ItemsViewModel.kt:71-75 | every id of the selection is soft-deleted in one statement |
| ArchiveItemsUi.ItemsViewModel.RestoreItems | archive/app-backup/src/main/java/com/example/smartlist/ui/viewmodel/ItemsViewModel.kt:78-82 | the restore loop leaves the item table exactly as `RestoreAll` says |
| ArchiveItemsUi.ItemsViewModel.AddItem | archive/app-backup/src/main/java/com/example/smartlist/ui/viewmodel/ItemsViewModel.kt:85-89 | the item table becomes `AddItemRows` of the old one |

## Left out

- Jetpack Compose screens, navigation and resources are not modelled. The
  display metadata of a state (label, description, colour, icon) is an
  opaque `StateInfo` record; only its id is behaviour. `allStateInfos` is not
  modelled.
- Coroutines, `StateFlow`, `stateIn`, `flatMapLatest` and the `SharedFlow`
  buffer are not modelled.
  - Each launched block runs atomically, in call order.
  - Events are appended to a sequence; the `extraBufferCapacity` of 4 and
    dropped `tryEmit` calls are not modelled.
  - A flow is read as its value at one moment (`CurrentItems`, `Items`).
- ListUi.ListViewModel.RenameList: the `try`/`catch` snackbar "Rename
  failed: …" is not modelled, because database exceptions are not modelled.
- ListUi.ListViewModel.SetState: the `try`/`catch` snackbar "Failed to set
  state: …" is not modelled, for the same reason.
- The clock (`System.currentTimeMillis`, `Date()` in `SimpleDateFormat`) and
  `UUID.randomUUID` are parameters. `ArchiveItemsUi.ItemsViewModel.RestoreItems`
  takes one clock reading per item as a sequence of stamps.
- Case-insensitive `contains` and `LIKE` fold ASCII letters only. This is
  SQLite's `LIKE`; Kotlin's `ignoreCase = true` also folds other letters,
  which is not modelled. Unicode is not normalised.
- `LIKE` is modelled without an ESCAPE clause, which is how the queries use it.
- `Long` and `Int` overflow of ids, counts and stamps is not modelled (integers
  are unbounded).
- Rows with equal `updatedAt` come back from `ORDER BY updatedAt DESC` in an
  order SQLite does not fix. `AppDb.ObserveLists` and `AppDb.ObserveItems`
  are ghost functions that leave that order open and promise only
  newest-first order.
- The `smartlist` entity files `ItemEntity.kt`, `ListNameEntity.kt` and
  `UiEvent.kt` are older than the DAOs and view model that use them. They
  lack `isStruck`, `isTemplate`, `masterId`, `isCloned`, `state`, the
  `ShowConfirm` and `ScrollToTop` events and the `undoInfo` argument. The
  row and event shapes follow the columns the queries name and the
  constructor calls of `ListViewModel.kt`, with the defaults those calls rely on.
- `Repository.updateList`, `updateItem` and `deleteItemsSoft` are called by the
  two view models but are not defined in `Repository.kt`. They are modelled as
  direct calls of the DAO's `@Update` and `softDeleteMany`.
- The archived variant's `ItemsViewModel` takes its repository from
  `ServiceLocator`. The variant's own repository is not part of this model; the
  `app` module's `Repository` stands in for it.
- `Repository.observeLists`/`observeItems` and the `lists` flow of
  `ListsViewModel` just forward `ObserveLists`/`ObserveItems`. They have no
  members of their own.
- `Log` calls are not modelled; they have no effect on state.
- ListStateManager.RequiresConfirmation has no `ensures` of its own. What it
  promises is stated by `ConfirmationIgnoresCurrent`, `ArchiveFromEveryActiveState`,
  `UnarchiveIsTheOnlyExit` and `ListNames.ConfirmationMeansHidden`.
- The step functions (`ListUi.AddStep`, `DeleteStep`, `RenameStep`,
  `UndoStep`, `SetTemplateStep`, `SetStateStep`, `UnarchiveStep`,
  `CloneStep`) have no `ensures` of their own. Their properties are the
  lemmas in the table.
- The snackbar texts are modelled as the literal strings of the source;
  string interpolation is concatenation.
