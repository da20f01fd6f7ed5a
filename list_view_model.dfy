/** The screen of lists: the view model that validates adding, renaming,
    deleting, templating, lifecycle moves and cloning of lists, keeps one
    undo slot per list for rename, delete and state change, and emits
    one-shot UI events. Each launched block is one atomic step; the step
    functions of `ViewState` say what each operation does, and the methods of
    `ListViewModel` are proved to perform exactly those steps. */
module ListUi {
  import opened Optional
  import opened Text
  import opened ListStateManager
  import Items
  import opened ListNames

  /** What an action button of a snackbar refers to. */
  datatype UndoInfo = UndoInfo(kind: string, id: int)

  /** The one-shot events the screen reacts to. */
  datatype UiEvent =
    | ShowSnackbar(message: string, actionLabel: Option<string>, undoInfo: Option<UndoInfo>)
    | ScrollToTop
    | ShowConfirm(title: string, message: string, confirmLabel: string, cancelLabel: string, kind: string, id: int)

  /** A snackbar with no action. */
  function Snack(message: string): UiEvent {
    ShowSnackbar(message, None, None)
  }

  /** A snackbar whose action button refers to list `id`. */
  function SnackWithAction(message: string, actionLabel: string, kind: string, id: int): UiEvent {
    ShowSnackbar(message, Some(actionLabel), Some(UndoInfo(kind, id)))
  }

  /** Everything an operation of the view model reads or writes: both tables,
      the search query, the show-archived toggle, the three undo slots and
      the events emitted so far. */
  datatype ViewState = ViewState(
    lists: ListStore,
    items: Items.ItemStore,
    query: string,
    showArchived: bool,
    renameBackup: map<int, string>,
    deleteBackup: map<int, ListRec>,
    stateBackup: map<int, string>,
    events: seq<UiEvent>)

  function Emit(st: ViewState, es: seq<UiEvent>): ViewState {
    st.(events := st.events + es)
  }

  // ---------------------------------------------------------------------
  // The `items` listing

  /** The listing the screen starts from: with or without archived clones. */
  function Source(st: ViewState): (r: seq<ListWithCount>)
    ensures InListingOrder(r)
    ensures forall i :: 0 <= i < |r| ==>
      Stored(st.lists.rows, r[i].list) && (st.showArchived || !IsArchivedClone(r[i].list))
    ensures forall k :: k in st.lists.rows && (st.showArchived || !IsArchivedClone(st.lists.rows[k])) ==>
      st.lists.rows[k] in ListsOf(r)
  {
    if st.showArchived then GetAllWithCountIncludeArchived(st.lists.rows, st.items.rows)
    else
      var r := GetAllWithCount(st.lists.rows, st.items.rows);
      assert forall k :: k in st.lists.rows && !IsArchivedClone(st.lists.rows[k]) ==> k in VisibleKeys(st.lists.rows);
      r
  }

  /** Rows in listing order: templates first, newest first within each group. */
  predicate InListingOrder(ls: seq<ListWithCount>) {
    forall i, j :: 0 <= i < j < |ls| ==> ListBefore(ls[i].list, ls[j].list)
  }

  /** Keeping the head of a listing and a subsequence of its tail keeps the order. */
  lemma ConsInOrder(ls: seq<ListWithCount>, rest: seq<ListWithCount>)
    requires ls != []
    requires forall y :: y in rest ==> y in ls[1..]
    ensures InListingOrder(ls) && InListingOrder(rest) ==> InListingOrder([ls[0]] + rest)
  {
    if InListingOrder(ls) && InListingOrder(rest) {
      var r := [ls[0]] + rest;
      forall i, j | 0 <= i < j < |r| ensures ListBefore(r[i].list, r[j].list) {
        assert r[j] == rest[j - 1];
        if i > 0 {
          assert r[i] == rest[i - 1];
        } else {
          assert rest[j - 1] in ls[1..];
          var k :| 0 <= k < |ls| - 1 && ls[1..][k] == rest[j - 1];
          assert ls[k + 1] == r[j];
        }
      }
    }
  }

  /** `list.filter { it.name.contains(q, ignoreCase = true) }`: the rows whose
      name contains `q` up to case, in their order. */
  function FilterByName(ls: seq<ListWithCount>, q: string): (r: seq<ListWithCount>)
    ensures forall x :: x in r <==> x in ls && ContainsIgnoreCase(x.list.name, q)
    ensures InListingOrder(ls) ==> InListingOrder(r)
  {
    if ls == [] then []
    else
      var rest := FilterByName(ls[1..], q);
      assert ls == [ls[0]] + ls[1..];
      assert InListingOrder(ls) ==> InListingOrder(ls[1..]);
      if ContainsIgnoreCase(ls[0].list.name, q) then
        ConsInOrder(ls, rest);
        [ls[0]] + rest
      else
        rest
  }

  /** `items`: the listing (archived clones included only while the toggle is
      on), cut down to the names containing the query unless it is blank. */
  function Visible(st: ViewState): (r: seq<ListWithCount>)
    ensures IsBlank(st.query) ==> r == Source(st)
    ensures forall x :: x in r <==> x in Source(st) && (IsBlank(st.query) || ContainsIgnoreCase(x.list.name, st.query))
    ensures InListingOrder(r)
  {
    if IsBlank(st.query) then Source(st) else FilterByName(Source(st), st.query)
  }

  // ---------------------------------------------------------------------
  // The operations, one atomic step each

  /** `add(name)`: a trimmed, non-blank name that no list has yet becomes a new
      plain list; no undo is offered. */
  function AddStep(st: ViewState, name: string): ViewState {
    var trimmed := Trim(name);
    if IsBlank(trimmed) then Emit(st, [Snack("List cannot be empty")])
    else if CountByName(st.lists.rows, trimmed) > 0 then Emit(st, [Snack("List already exists")])
    else
      var inserted := InsertIgnore(st.lists, NewList(trimmed));
      Emit(st.(lists := inserted.0), [Snack("List added"), ScrollToTop])
  }

  /** `deleteList(id)`: a list that is not a template is removed, whole row
      saved in its delete slot. Its items stay in the items table. */
  function DeleteStep(st: ViewState, id: int): ViewState {
    match GetById(st.lists.rows, id)
    case None => st
    case Some(entity) =>
      if entity.isTemplate then Emit(st, [Snack("Cannot delete a template/master list")])
      else
        var removed := st.lists.(rows := st.lists.rows - {id});
        Emit(st.(deleteBackup := st.deleteBackup[id := entity], lists := removed),
          [SnackWithAction("List deleted", "Undo", "list_delete", id)])
  }

  /** `renameList(id, newName)`: a trimmed, non-blank name that no other list
      has replaces the name of a list that is not a template; the old name is
      saved in its rename slot. */
  function RenameStep(st: ViewState, id: int, newName: string): ViewState {
    var trimmed := Trim(newName);
    if IsBlank(trimmed) then Emit(st, [Snack("Name cannot be empty")])
    else
      match GetById(st.lists.rows, id)
      case None => st
      case Some(entity) =>
        if entity.isTemplate then Emit(st, [Snack("Cannot rename a template/master list")])
        else if CountByNameExceptId(st.lists.rows, trimmed, id) > 0 then Emit(st, [Snack("List already exists")])
        else
          var oldName := match GetNameById(st.lists.rows, id) case Some(n) => n case None => "";
          var renamed := st.lists.(rows := Renamed(st.lists.rows, id, trimmed));
          Emit(st.(renameBackup := st.renameBackup[id := oldName], lists := renamed),
            [SnackWithAction("List renamed", "Undo", "list_rename", id)])
  }

  /** `handleUndo(info)`: each of the three slots is emptied by the undo that
      reads it; an empty slot makes that undo do nothing. Undoing an add
      deletes the row outright, and an unknown kind is ignored. */
  function UndoStep(st: ViewState, info: UndoInfo): ViewState {
    var id := info.id;
    if info.kind == "list_rename" then
      if id in st.renameBackup then
        var restored := st.lists.(rows := Renamed(st.lists.rows, id, st.renameBackup[id]));
        Emit(st.(renameBackup := st.renameBackup - {id}, lists := restored), [Snack("Rename undone")])
      else st
    else if info.kind == "list_add" then
      Emit(st.(lists := st.lists.(rows := st.lists.rows - {id})), [Snack("Add undone")])
    else if info.kind == "list_delete" then
      if id in st.deleteBackup then
        var reinserted := InsertIgnore(st.lists, st.deleteBackup[id]).0;
        Emit(st.(deleteBackup := st.deleteBackup - {id}, lists := reinserted), [Snack("Delete undone"), ScrollToTop])
      else st
    else if info.kind == "state_change" then
      if id in st.stateBackup then
        var restored := st.lists.(rows := WithState(st.lists.rows, id, st.stateBackup[id]));
        Emit(st.(stateBackup := st.stateBackup - {id}, lists := restored), [Snack("State change undone")])
      else st
    else st
  }

  /** `setTemplate(id, isTemplate)`: sets the flag with no check at all. */
  function SetTemplateStep(st: ViewState, id: int, isTemplate: bool): ViewState {
    var flagged := st.lists.(rows := WithTemplateFlag(st.lists.rows, id, isTemplate));
    Emit(st.(lists := flagged),
      [Snack(if isTemplate then "List marked as template" else "List unmarked as template")])
  }

  /** The checks `setState` makes before it changes anything. */
  predicate CanSetState(rows: ListTable, id: int, newState: string) {
    id in rows && !rows[id].isTemplate && rows[id].isCloned && IsTransitionAllowed(rows[id].state, newState)
  }

  /** `setState(id, newState)`: only a cloned, non-template list moves, and
      only along the transition table; the old state goes to its state slot.
      Archiving also switches the archived lists on, so the row stays in view. */
  function SetStateStep(st: ViewState, id: int, newState: string): ViewState {
    match GetById(st.lists.rows, id)
    case None => st
    case Some(entity) =>
      if entity.isTemplate then Emit(st, [Snack("Cannot change state of a template/master list")])
      else if !entity.isCloned then Emit(st, [Snack("Only cloned lists have editable states")])
      else if !IsTransitionAllowed(entity.state, newState) then
        Emit(st, [Snack("Cannot change state from " + entity.state + " to " + newState)])
      else
        var moved := st.lists.(rows := WithState(st.lists.rows, id, newState));
        var changed := Emit(st.(stateBackup := st.stateBackup[id := entity.state], lists := moved),
          [SnackWithAction("List state set to " + newState, "Undo", "state_change", id)]);
        if newState == ARCHIVED then
          Emit(changed.(showArchived := true), [SnackWithAction("List archived", "Show", "show_archived", id)])
        else changed
  }

  /** `unarchiveList(id)`: an archived clone goes through `setState` to the
      default unarchive target; any other list is refused. */
  function UnarchiveStep(st: ViewState, id: int): ViewState {
    match GetById(st.lists.rows, id)
    case None => st
    case Some(entity) =>
      if !entity.isCloned || entity.state != ARCHIVED then Emit(st, [Snack("List is not archived")])
      else SetStateStep(st, id, DefaultUnarchiveTarget())
  }

  /** `itemDao.insert(ItemEntity(listId, content))` for each of the first `n`
      items of `src` in turn. Into a well-numbered table the copies take the
      next `n` ids, the copy at `s.nextId + i` being item `i` of `src`,
      unstruck, in list `listId`; every row already there stays as it was. */
  function CopyItems(s: Items.ItemStore, src: seq<Items.ItemRec>, n: nat, listId: int): (r: Items.ItemStore)
    requires n <= |src|
    ensures Items.WellNumbered(s) ==> Items.WellNumbered(r) && r.nextId == s.nextId + n
    ensures Items.WellNumbered(s) ==> forall k :: k in r.rows <==> k in s.rows || s.nextId <= k < s.nextId + n
    ensures Items.WellNumbered(s) ==> forall k :: k in s.rows ==> r.rows[k] == s.rows[k]
    ensures Items.WellNumbered(s) ==> forall i :: 0 <= i < n ==>
      r.rows[s.nextId + i] == Items.ItemRec(s.nextId + i, listId, src[i].content, false)
  {
    if n == 0 then s
    else
      var before := CopyItems(s, src, n - 1, listId);
      var r := Items.InsertIgnore(before, Items.NewItem(listId, src[n - 1].content)).0;
      assert Items.WellNumbered(s) ==>
        r.rows == before.rows[before.nextId := Items.ItemRec(before.nextId, listId, src[n - 1].content, false)];
      r
  }

  /** The keys from `a` up to, not including, `b`. */
  function Range(a: int, b: int): (r: set<int>)
    ensures forall k :: k in r <==> a <= k < b
    ensures a <= b ==> |r| == b - a
    decreases b - a
  {
    if a >= b then {} else {a} + Range(a + 1, b)
  }

  /** The items of list `listId` after the copies that were already there. */
  lemma CopyKeepsKeysOfList(s: Items.ItemStore, src: seq<Items.ItemRec>, listId: int)
    requires Items.WellNumbered(s)
    ensures var r := CopyItems(s, src, |src|, listId);
      Items.KeysOfList(r.rows, listId) <= Items.KeysOfList(s.rows, listId) + Range(s.nextId, s.nextId + |src|)
  {
    var r := CopyItems(s, src, |src|, listId);
    forall k | k in Items.KeysOfList(r.rows, listId) ensures k in Items.KeysOfList(s.rows, listId) || s.nextId <= k < s.nextId + |src| {
      if k in s.rows {
        assert r.rows[k] == s.rows[k];
      }
    }
  }

  /** Every item of list `listId`, and every copy, is an item of it afterwards. */
  lemma CopyExtendsKeysOfList(s: Items.ItemStore, src: seq<Items.ItemRec>, listId: int)
    requires Items.WellNumbered(s)
    ensures var r := CopyItems(s, src, |src|, listId);
      Items.KeysOfList(s.rows, listId) + Range(s.nextId, s.nextId + |src|) <= Items.KeysOfList(r.rows, listId)
  {
    var r := CopyItems(s, src, |src|, listId);
    forall k | k in Items.KeysOfList(s.rows, listId) ensures k in Items.KeysOfList(r.rows, listId) {
      assert r.rows[k] == s.rows[k];
    }
    forall k | k in Range(s.nextId, s.nextId + |src|) ensures k in Items.KeysOfList(r.rows, listId) {
      var i := k - s.nextId;
      assert r.rows[s.nextId + i] == Items.ItemRec(s.nextId + i, listId, src[i].content, false);
    }
  }

  /** List `listId` gains exactly the copies, so it has `|src|` more items. */
  lemma CopyItemsCount(s: Items.ItemStore, src: seq<Items.ItemRec>, listId: int)
    requires Items.WellNumbered(s)
    ensures var r := CopyItems(s, src, |src|, listId);
      && Items.KeysOfList(r.rows, listId) == Items.KeysOfList(s.rows, listId) + Range(s.nextId, s.nextId + |src|)
      && |Items.KeysOfList(r.rows, listId)| == |Items.KeysOfList(s.rows, listId)| + |src|
  {
    CopyKeepsKeysOfList(s, src, listId);
    CopyExtendsKeysOfList(s, src, listId);
    assert Items.KeysOfList(s.rows, listId) * Range(s.nextId, s.nextId + |src|) == {};
  }

  /** `cloneList(sourceListId)`: a template gets a plain, cloned copy named
      after it with the time stamp appended (no check that the name is free),
      holding a copy of each of its items in `getForList` order. */
  function CloneStep(st: ViewState, sourceListId: int, stamp: string): ViewState {
    match GetById(st.lists.rows, sourceListId)
    case None => st
    case Some(source) =>
      if !source.isTemplate then Emit(st, [Snack("Only template/master lists can be cloned")])
      else
        var newName := source.name + " " + stamp;
        var inserted := InsertIgnore(st.lists, ListRec(0, newName, false, Some(sourceListId), true, PRECHECK));
        var newId := inserted.1;
        var src := Items.GetForList(st.items.rows, sourceListId);
        var copied := CopyItems(st.items, src, |src|, newId);
        Emit(st.(lists := inserted.0, items := copied),
          [SnackWithAction("Cloned list \"" + newName + "\"", "Open", "open_list", newId), ScrollToTop])
  }

  const ArchivePrompt: UiEvent := ShowConfirm("Archive list?",
    "Archiving will hide this list from the main screen. Continue?", "Save", "Cancel", "archive", 0)

  const DeletePrompt: UiEvent := ShowConfirm("Delete list?",
    "Deleting will remove the list and its items. This cannot be undone except via the Undo action. Continue?",
    "Delete", "Cancel", "delete", 0)

  // ---------------------------------------------------------------------
  // What the steps promise

  /** The store is numbered the way the database numbers it. */
  predicate Numbered(st: ViewState) {
    WellNumbered(st.lists) && Items.WellNumbered(st.items)
  }

  /** `add` inserts exactly when the trimmed name is non-blank and no list has
      it; the new list is a plain one at the next id, announced by "List added"
      and a scroll to the top, and nothing else changes. */
  lemma AddOutcome(st: ViewState, name: string)
    requires WellNumbered(st.lists)
    ensures var after := AddStep(st, name);
      && after.items == st.items && after.renameBackup == st.renameBackup
      && after.deleteBackup == st.deleteBackup && after.stateBackup == st.stateBackup
      && after.query == st.query && after.showArchived == st.showArchived
      && |after.events| > |st.events| && after.events[..|st.events|] == st.events
      && (after.lists != st.lists ==> after.events == st.events + [Snack("List added"), ScrollToTop])
      && (after.lists != st.lists <==>
            !IsBlank(Trim(name)) && forall k :: k in st.lists.rows ==> st.lists.rows[k].name != Trim(name))
      && (after.lists != st.lists ==>
            after.lists.rows == st.lists.rows[st.lists.nextId := NewList(Trim(name)).(id := st.lists.nextId)])
  {
    var trimmed := Trim(name);
    if !IsBlank(trimmed) && CountByName(st.lists.rows, trimmed) == 0 {
      var ins := InsertIgnore(st.lists, NewList(trimmed));
      assert AddStep(st, name).lists == ins.0;
      assert st.lists.nextId !in st.lists.rows && st.lists.nextId in ins.0.rows;
    }
  }

  /** Adding never creates a second list with the same name. */
  lemma AddKeepsNamesUnique(st: ViewState, name: string)
    requires UniqueNames(st.lists.rows)
    ensures UniqueNames(AddStep(st, name).lists.rows)
  {
    var trimmed := Trim(name);
    if !IsBlank(trimmed) && CountByName(st.lists.rows, trimmed) == 0 {
      var ins := InsertIgnore(st.lists, NewList(trimmed));
      var after := ins.0.rows;
      assert AddStep(st, name).lists.rows == after;
      if ins.0 != st.lists {
        assert forall k :: k in after && k != ins.1 ==> after[k] == st.lists.rows[k] && after[k].name != trimmed;
        assert after[ins.1].name == trimmed;
      }
    }
  }

  /** The checks `renameList` makes, on the trimmed name, before it changes anything. */
  predicate CanRename(rows: ListTable, id: int, trimmed: string) {
    !IsBlank(trimmed) && id in rows && !rows[id].isTemplate && CountByNameExceptId(rows, trimmed, id) == 0
  }

  /** A rename that passes the checks writes the trimmed name into that row
      alone, saves the old name in the rename slot and offers its undo; the
      items, the other slots, the query and the toggle stay as they are. */
  lemma RenameApplies(st: ViewState, id: int, newName: string)
    requires CanRename(st.lists.rows, id, Trim(newName))
    ensures var after := RenameStep(st, id, newName);
      && after.lists == st.lists.(rows := Renamed(st.lists.rows, id, Trim(newName)))
      && after.renameBackup == st.renameBackup[id := st.lists.rows[id].name]
      && after.items == st.items && after.deleteBackup == st.deleteBackup && after.stateBackup == st.stateBackup
      && after.query == st.query && after.showArchived == st.showArchived
      && after.events == st.events + [SnackWithAction("List renamed", "Undo", "list_rename", id)]
  {
    assert GetById(st.lists.rows, id) == Some(st.lists.rows[id]);
    assert GetNameById(st.lists.rows, id) == Some(st.lists.rows[id].name);
  }

  /** A rename that fails a check changes no row, no undo slot, not the query
      and not the toggle; it only appends the snackbar of the first check that
      failed (none when the list is missing). */
  lemma RenameRefused(st: ViewState, id: int, newName: string)
    requires !CanRename(st.lists.rows, id, Trim(newName))
    ensures var after := RenameStep(st, id, newName);
      && after.lists == st.lists && after.items == st.items
      && after.renameBackup == st.renameBackup && after.deleteBackup == st.deleteBackup && after.stateBackup == st.stateBackup
      && after.query == st.query && after.showArchived == st.showArchived
      && after.events == st.events +
           if IsBlank(Trim(newName)) then [Snack("Name cannot be empty")]
           else if id !in st.lists.rows then []
           else if st.lists.rows[id].isTemplate then [Snack("Cannot rename a template/master list")]
           else [Snack("List already exists")]
  {
    var trimmed := Trim(newName);
    if IsBlank(trimmed) {
    } else if id !in st.lists.rows {
      assert GetById(st.lists.rows, id) == None;
    } else if st.lists.rows[id].isTemplate {
      RenameSparesTemplates(st, id, newName);
    } else {
      assert GetById(st.lists.rows, id) == Some(st.lists.rows[id]);
      assert CountByNameExceptId(st.lists.rows, trimmed, id) > 0;
    }
  }

  /** Renaming never gives a list a name another list has. */
  lemma RenameKeepsNamesUnique(st: ViewState, id: int, newName: string)
    requires UniqueNames(st.lists.rows)
    ensures UniqueNames(RenameStep(st, id, newName).lists.rows)
  {
    var trimmed := Trim(newName);
    if IsBlank(trimmed) || id !in st.lists.rows || st.lists.rows[id].isTemplate {
      RenameRefused(st, id, newName);
    } else if CountByNameExceptId(st.lists.rows, trimmed, id) > 0 {
      RenameRefused(st, id, newName);
    } else {
      RenameApplies(st, id, newName);
      var after := Renamed(st.lists.rows, id, trimmed);
      assert forall k :: k in after && k != id ==> after[k] == st.lists.rows[k] && after[k].name != trimmed;
      assert after[id].name == trimmed;
    }
  }

  /** Deleting a list that is not a template removes that row alone, saves
      the whole row in the delete slot and offers its undo; the items, the
      other slots, the query and the toggle stay as they are. */
  lemma DeleteApplies(st: ViewState, id: int)
    requires id in st.lists.rows && !st.lists.rows[id].isTemplate
    ensures var after := DeleteStep(st, id);
      && after.lists == st.lists.(rows := st.lists.rows - {id})
      && after.deleteBackup == st.deleteBackup[id := st.lists.rows[id]]
      && after.items == st.items && after.renameBackup == st.renameBackup && after.stateBackup == st.stateBackup
      && after.query == st.query && after.showArchived == st.showArchived
      && after.events == st.events + [SnackWithAction("List deleted", "Undo", "list_delete", id)]
  {
    assert GetById(st.lists.rows, id) == Some(st.lists.rows[id]);
  }

  /** Deleting a list that is not there does nothing at all. */
  lemma DeleteMissingIsNoop(st: ViewState, id: int)
    requires id !in st.lists.rows
    ensures DeleteStep(st, id) == st
  {
    assert GetById(st.lists.rows, id) == None;
  }

  /** A template cannot be deleted: the only effect is the refusal snackbar. */
  lemma DeleteSparesTemplates(st: ViewState, id: int)
    requires id in st.lists.rows && st.lists.rows[id].isTemplate
    ensures DeleteStep(st, id) == Emit(st, [Snack("Cannot delete a template/master list")])
  {
    assert GetById(st.lists.rows, id) == Some(st.lists.rows[id]);
  }

  /** A template cannot be renamed: the only effect is a refusal snackbar. */
  lemma RenameSparesTemplates(st: ViewState, id: int, newName: string)
    requires id in st.lists.rows && st.lists.rows[id].isTemplate
    ensures RenameStep(st, id, newName) == Emit(st, [Snack(
      if IsBlank(Trim(newName)) then "Name cannot be empty" else "Cannot rename a template/master list")])
  {
    assert GetById(st.lists.rows, id) == Some(st.lists.rows[id]);
  }

  /** A template cannot change state: the only effect is the refusal snackbar. */
  lemma SetStateSparesTemplates(st: ViewState, id: int, newState: string)
    requires id in st.lists.rows && st.lists.rows[id].isTemplate
    ensures SetStateStep(st, id, newState) == Emit(st, [Snack("Cannot change state of a template/master list")])
  {
    assert GetById(st.lists.rows, id) == Some(st.lists.rows[id]);
  }

  /** Deleting a list and undoing it puts back the very same row (id, flags,
      state and master) and empties the delete slot. */
  lemma DeleteUndoRoundTrip(st: ViewState, id: int)
    requires WellNumbered(st.lists)
    requires id in st.lists.rows && !st.lists.rows[id].isTemplate
    ensures var after := UndoStep(DeleteStep(st, id), UndoInfo("list_delete", id));
      after.lists == st.lists && after.items == st.items && after.deleteBackup == st.deleteBackup - {id}
  {
    var deleted := DeleteStep(st, id);
    var entity := st.lists.rows[id];
    assert deleted.deleteBackup[id] == entity;
    assert entity.id != 0 && entity.id < deleted.lists.nextId && entity.id !in deleted.lists.rows;
    assert deleted.lists.rows[id := entity] == st.lists.rows;
  }

  /** Undoing a rename writes the saved name back into that row and empties
      the rename slot. */
  lemma UndoRenameRestores(st: ViewState, id: int)
    requires id in st.renameBackup
    ensures var after := UndoStep(st, UndoInfo("list_rename", id));
      && after.lists == st.lists.(rows := Renamed(st.lists.rows, id, st.renameBackup[id]))
      && after.renameBackup == st.renameBackup - {id}
  {
  }

  /** Undoing a state change writes the saved state back into that row and
      empties the state slot; the archived toggle stays as it is. */
  lemma UndoStateRestores(st: ViewState, id: int)
    requires id in st.stateBackup
    ensures var after := UndoStep(st, UndoInfo("state_change", id));
      && after.lists == st.lists.(rows := WithState(st.lists.rows, id, st.stateBackup[id]))
      && after.stateBackup == st.stateBackup - {id}
      && after.showArchived == st.showArchived
  {
  }

  /** Renaming a list and undoing it restores the old name and empties the
      rename slot. */
  lemma RenameUndoRoundTrip(st: ViewState, id: int, newName: string)
    requires CanRename(st.lists.rows, id, Trim(newName))
    ensures var after := UndoStep(RenameStep(st, id, newName), UndoInfo("list_rename", id));
      after.lists == st.lists && after.renameBackup == st.renameBackup - {id}
  {
    var renamed := RenameStep(st, id, newName);
    assert renamed.lists == st.lists.(rows := Renamed(st.lists.rows, id, Trim(newName)))
      && renamed.renameBackup == st.renameBackup[id := st.lists.rows[id].name] by {
      RenameApplies(st, id, newName);
    }
    UndoRenameRestores(renamed, id);
    RenameRoundTrip(st.lists.rows, id, Trim(newName));
    var undone := UndoStep(renamed, UndoInfo("list_rename", id));
    assert undone.lists.rows == Renamed(Renamed(st.lists.rows, id, Trim(newName)), id, st.lists.rows[id].name);
    assert undone.renameBackup == st.renameBackup[id := st.lists.rows[id].name] - {id};
    assert st.renameBackup[id := st.lists.rows[id].name] - {id} == st.renameBackup - {id};
  }

  /** A permitted move and its undo restore the old state and empty the state
      slot; the archived toggle is not switched back off. */
  lemma StateUndoRoundTrip(st: ViewState, id: int, newState: string)
    requires CanSetState(st.lists.rows, id, newState)
    ensures var after := UndoStep(SetStateStep(st, id, newState), UndoInfo("state_change", id));
      && after.lists == st.lists && after.stateBackup == st.stateBackup - {id}
      && after.showArchived == (st.showArchived || newState == ARCHIVED)
  {
    SetStateApplies(st, id, newState);
    var moved := SetStateStep(st, id, newState);
    UndoStateRestores(moved, id);
    StateRoundTrip(st.lists.rows, id, newState);
  }

  /** Each of the three slot-backed undos is consumed at most once: repeating
      it does nothing more, not even emit an event. */
  lemma UndoAtMostOnce(st: ViewState, info: UndoInfo)
    requires info.kind == "list_rename" || info.kind == "list_delete" || info.kind == "state_change"
    ensures UndoStep(UndoStep(st, info), info) == UndoStep(st, info)
  {
  }

  /** An undo whose slot is empty, or whose kind is none of the four, does
      nothing at all. */
  lemma UndoWithoutBackupIsNoop(st: ViewState, info: UndoInfo)
    ensures info.kind == "list_rename" && info.id !in st.renameBackup ==> UndoStep(st, info) == st
    ensures info.kind == "list_delete" && info.id !in st.deleteBackup ==> UndoStep(st, info) == st
    ensures info.kind == "state_change" && info.id !in st.stateBackup ==> UndoStep(st, info) == st
    ensures info.kind !in {"list_rename", "list_add", "list_delete", "state_change"} ==> UndoStep(st, info) == st
  {
  }

  /** A permitted move writes the new state into that row alone, saves the old
      state in the state slot, actually changes the row (no state moves to
      itself) and offers its undo; archiving also turns the archived toggle on
      and offers to show the archived lists. The items, the other slots and
      the query stay as they are. */
  lemma SetStateApplies(st: ViewState, id: int, newState: string)
    requires CanSetState(st.lists.rows, id, newState)
    ensures var after := SetStateStep(st, id, newState);
      && after.lists == st.lists.(rows := WithState(st.lists.rows, id, newState))
      && after.lists != st.lists
      && after.stateBackup == st.stateBackup[id := st.lists.rows[id].state]
      && after.showArchived == (st.showArchived || newState == ARCHIVED)
      && after.items == st.items && after.renameBackup == st.renameBackup && after.deleteBackup == st.deleteBackup
      && after.query == st.query
      && after.events == st.events + [SnackWithAction("List state set to " + newState, "Undo", "state_change", id)]
           + (if newState == ARCHIVED then [SnackWithAction("List archived", "Show", "show_archived", id)] else [])
  {
    assert GetById(st.lists.rows, id) == Some(st.lists.rows[id]);
    NoSelfTransition(st.lists.rows[id].state);
    assert WithState(st.lists.rows, id, newState)[id].state != st.lists.rows[id].state;
  }

  /** A move that fails a check changes no row, no undo slot, not the query
      and not the toggle; it only appends the snackbar of the first check that
      failed (none when the list is missing). */
  lemma SetStateRefused(st: ViewState, id: int, newState: string)
    requires !CanSetState(st.lists.rows, id, newState)
    ensures var after := SetStateStep(st, id, newState);
      && after.lists == st.lists && after.items == st.items && after.showArchived == st.showArchived
      && after.renameBackup == st.renameBackup && after.deleteBackup == st.deleteBackup && after.stateBackup == st.stateBackup
      && after.query == st.query
      && after.events == st.events +
           if id !in st.lists.rows then []
           else if st.lists.rows[id].isTemplate then [Snack("Cannot change state of a template/master list")]
           else if !st.lists.rows[id].isCloned then [Snack("Only cloned lists have editable states")]
           else [Snack("Cannot change state from " + st.lists.rows[id].state + " to " + newState)]
  {
    if id !in st.lists.rows {
      assert GetById(st.lists.rows, id) == None;
    } else if st.lists.rows[id].isTemplate {
      SetStateSparesTemplates(st, id, newState);
    } else if !st.lists.rows[id].isCloned {
      assert GetById(st.lists.rows, id) == Some(st.lists.rows[id]);
      assert SetStateStep(st, id, newState) == Emit(st, [Snack("Only cloned lists have editable states")]);
    } else {
      var e := st.lists.rows[id];
      assert GetById(st.lists.rows, id) == Some(e);
      assert !IsTransitionAllowed(e.state, newState);
      assert SetStateStep(st, id, newState) == Emit(st, [Snack("Cannot change state from " + e.state + " to " + newState)]);
    }
  }

  /** Every step keeps both tables numbered the way the database numbers them. */
  lemma StepsKeepNumbered(st: ViewState, id: int, name: string, flag: bool, info: UndoInfo, stamp: string)
    requires Numbered(st)
    ensures Numbered(AddStep(st, name))
    ensures Numbered(DeleteStep(st, id))
    ensures Numbered(RenameStep(st, id, name))
    ensures Numbered(UndoStep(st, info))
    ensures Numbered(SetTemplateStep(st, id, flag))
    ensures Numbered(SetStateStep(st, id, name))
    ensures Numbered(UnarchiveStep(st, id))
    ensures Numbered(CloneStep(st, id, stamp))
  {
    EditsKeepNumbered(st, id, name, flag, info);
    StateStepsKeepNumbered(st, id, name);
    CloneKeepsNumbered(st, id, stamp);
  }

  /** Changing rows of the lists table without adding a key keeps the numbering. */
  lemma FewerListsNumbered(st: ViewState, after: ViewState)
    requires Numbered(st)
    requires after.items == st.items && after.lists.nextId == st.lists.nextId
    requires after.lists.rows.Keys <= st.lists.rows.Keys
    ensures Numbered(after)
  {
  }

  lemma EditsKeepNumbered(st: ViewState, id: int, name: string, flag: bool, info: UndoInfo)
    requires Numbered(st)
    ensures Numbered(AddStep(st, name))
    ensures Numbered(DeleteStep(st, id))
    ensures Numbered(RenameStep(st, id, name))
    ensures Numbered(UndoStep(st, info))
    ensures Numbered(SetTemplateStep(st, id, flag))
  {
    AddKeepsNumbered(st, name);
    DeleteKeepsNumbered(st, id);
    RenameKeepsNumbered(st, id, name);
    FewerListsNumbered(st, SetTemplateStep(st, id, flag));
    UndoKeepsNumbered(st, info);
  }

  lemma AddKeepsNumbered(st: ViewState, name: string)
    requires Numbered(st)
    ensures Numbered(AddStep(st, name))
  {
    AddOutcome(st, name);
  }

  lemma DeleteKeepsNumbered(st: ViewState, id: int)
    requires Numbered(st)
    ensures Numbered(DeleteStep(st, id))
  {
    if id !in st.lists.rows {
      DeleteMissingIsNoop(st, id);
    } else if st.lists.rows[id].isTemplate {
      DeleteSparesTemplates(st, id);
    } else {
      DeleteApplies(st, id);
    }
    FewerListsNumbered(st, DeleteStep(st, id));
  }

  lemma RenameKeepsNumbered(st: ViewState, id: int, name: string)
    requires Numbered(st)
    ensures Numbered(RenameStep(st, id, name))
  {
    if CanRename(st.lists.rows, id, Trim(name)) {
      RenameApplies(st, id, name);
    } else {
      RenameRefused(st, id, name);
    }
    FewerListsNumbered(st, RenameStep(st, id, name));
  }

  lemma UndoKeepsNumbered(st: ViewState, info: UndoInfo)
    requires Numbered(st)
    ensures Numbered(UndoStep(st, info))
  {
    var undone := UndoStep(st, info);
    if info.kind == "list_rename" || info.kind == "state_change" {
      assert undone.lists.rows.Keys == st.lists.rows.Keys;
      FewerListsNumbered(st, undone);
    } else if info.kind == "list_delete" && info.id in st.deleteBackup {
      assert undone.lists == InsertIgnore(st.lists, st.deleteBackup[info.id]).0;
    } else {
      FewerListsNumbered(st, undone);
    }
  }

  lemma StateStepsKeepNumbered(st: ViewState, id: int, newState: string)
    requires Numbered(st)
    ensures Numbered(SetStateStep(st, id, newState))
    ensures Numbered(UnarchiveStep(st, id))
  {
    SetStateKeepsNumbered(st, id, newState);
    SetStateKeepsNumbered(st, id, DefaultUnarchiveTarget());
    if id in st.lists.rows {
      UnarchiveOutcome(st, id);
    } else {
      assert GetById(st.lists.rows, id) == None;
    }
  }

  lemma SetStateKeepsNumbered(st: ViewState, id: int, newState: string)
    requires Numbered(st)
    ensures Numbered(SetStateStep(st, id, newState))
  {
    if CanSetState(st.lists.rows, id, newState) {
      SetStateApplies(st, id, newState);
    } else {
      SetStateRefused(st, id, newState);
    }
    FewerListsNumbered(st, SetStateStep(st, id, newState));
  }

  lemma CloneKeepsNumbered(st: ViewState, id: int, stamp: string)
    requires Numbered(st)
    ensures Numbered(CloneStep(st, id, stamp))
  {
    if id in st.lists.rows && st.lists.rows[id].isTemplate {
      CloneAddsList(st, id, stamp);
      CloneWrites(st, id, stamp);
    } else {
      assert CloneStep(st, id, stamp).lists == st.lists && CloneStep(st, id, stamp).items == st.items;
    }
  }

  /** Archiving hides the list from the main listing, yet with a blank query
      it stays on screen, because the archived lists are switched on. */
  lemma ArchivedListStaysInView(st: ViewState, id: int)
    requires CanSetState(st.lists.rows, id, ARCHIVED) && IsBlank(st.query)
    ensures var after := SetStateStep(st, id, ARCHIVED);
      && after.lists.rows[id] !in GetAll(after.lists.rows)
      && after.lists.rows[id] in ListsOf(Visible(after))
  {
    SetStateApplies(st, id, ARCHIVED);
    var after := SetStateStep(st, id, ARCHIVED);
    InGetAll(after.lists.rows, after.lists.rows[id]);
  }

  /** Unarchiving is `setState` to PRECHECK for an archived clone and a refusal
      otherwise; an archived clone that is not a template comes back to the
      main listing as PRECHECK. */
  lemma UnarchiveOutcome(st: ViewState, id: int)
    requires id in st.lists.rows
    ensures var e := st.lists.rows[id];
      e.isCloned && e.state == ARCHIVED ==> UnarchiveStep(st, id) == SetStateStep(st, id, PRECHECK)
    ensures var e := st.lists.rows[id];
      !(e.isCloned && e.state == ARCHIVED) ==> UnarchiveStep(st, id) == Emit(st, [Snack("List is not archived")])
    ensures var e := st.lists.rows[id];
      e.isCloned && e.state == ARCHIVED && !e.isTemplate ==>
        var after := UnarchiveStep(st, id).lists.rows;
        after[id].state == PRECHECK && after[id] in GetAll(after)
  {
    var e := st.lists.rows[id];
    if e.isCloned && e.state == ARCHIVED && !e.isTemplate {
      var after := UnarchiveStep(st, id).lists.rows;
      assert CanSetState(st.lists.rows, id, PRECHECK);
      InGetAll(after, after[id]);
    }
  }

  /** What cloning a template writes: the new list row at the next id and the
      copies of the template's items into it. */
  lemma CloneWrites(st: ViewState, sourceId: int, stamp: string)
    requires WellNumbered(st.lists)
    requires sourceId in st.lists.rows && st.lists.rows[sourceId].isTemplate
    ensures var after := CloneStep(st, sourceId, stamp);
      var newId := st.lists.nextId;
      var src := Items.GetForList(st.items.rows, sourceId);
      && after.lists == InsertIgnore(st.lists,
           ListRec(0, st.lists.rows[sourceId].name + " " + stamp, false, Some(sourceId), true, PRECHECK)).0
      && after.items == CopyItems(st.items, src, |src|, newId)
  {
    assert GetById(st.lists.rows, sourceId) == Some(st.lists.rows[sourceId]);
    var ins := InsertIgnore(st.lists,
      ListRec(0, st.lists.rows[sourceId].name + " " + stamp, false, Some(sourceId), true, PRECHECK));
    assert ins.1 == st.lists.nextId;
  }

  /** Cloning a template adds one plain list at the next id, marked cloned,
      in PRECHECK and pointing back at its template. */
  lemma CloneAddsList(st: ViewState, sourceId: int, stamp: string)
    requires WellNumbered(st.lists)
    requires sourceId in st.lists.rows && st.lists.rows[sourceId].isTemplate
    ensures var after := CloneStep(st, sourceId, stamp);
      var newId := st.lists.nextId;
      && WellNumbered(after.lists)
      && after.lists.rows == st.lists.rows[newId :=
           ListRec(newId, st.lists.rows[sourceId].name + " " + stamp, false, Some(sourceId), true, PRECHECK)]
  {
    CloneWrites(st, sourceId, stamp);
  }

  /** The clone gains exactly as many items as the template has. */
  lemma CloneCountsItems(st: ViewState, sourceId: int, stamp: string)
    requires Numbered(st)
    requires sourceId in st.lists.rows && st.lists.rows[sourceId].isTemplate
    ensures var after := CloneStep(st, sourceId, stamp);
      var newId := st.lists.nextId;
      Items.ItemCount(after.items.rows, newId)
        == Items.ItemCount(st.items.rows, newId) + Items.ItemCount(st.items.rows, sourceId)
  {
    CloneWrites(st, sourceId, stamp);
    var src := Items.GetForList(st.items.rows, sourceId);
    CopyItemsCount(st.items, src, st.lists.nextId);
  }

  // ---------------------------------------------------------------------
  // The view model itself

  /** The view model of the lists screen: its two DAOs, its query and toggle,
      its three undo slots and the events it has emitted. */
  class ListViewModel {
    const dao: ListNameDao
    const itemDao: Items.ItemDao
    var query: string
    var showArchived: bool
    var renameBackup: map<int, string>
    var deleteBackup: map<int, ListRec>
    var stateBackup: map<int, string>
    var events: seq<UiEvent>

    function State(): ViewState
      reads this, dao, itemDao
    {
      ViewState(dao.Store(), itemDao.Store(), query, showArchived, renameBackup, deleteBackup, stateBackup, events)
    }

    constructor (dao: ListNameDao, itemDao: Items.ItemDao)
      requires dao.Valid() && itemDao.Valid()
      ensures Valid()
      ensures this.dao == dao && this.itemDao == itemDao
      ensures query == "" && !showArchived && events == []
      ensures renameBackup == map[] && deleteBackup == map[] && stateBackup == map[]
    {
      this.dao := dao;
      this.itemDao := itemDao;
      query := "";
      showArchived := false;
      renameBackup := map[];
      deleteBackup := map[];
      stateBackup := map[];
      events := [];
    }

    /** Both tables are numbered the way the database numbers them. */
    ghost predicate Valid()
      reads this, dao, itemDao
    {
      dao.Valid() && itemDao.Valid()
    }

    /** The `items` flow, read at this moment. */
    function CurrentItems(): seq<ListWithCount>
      reads this, dao, itemDao
    {
      Visible(State())
    }

    /** `setShowArchived(show)`: only the flag changes. */
    method SetShowArchived(show: bool)
      modifies this`showArchived
      ensures showArchived == show
    {
      showArchived := show;
    }

    /** `setQuery(q)`: stores the query trimmed. */
    method SetQuery(q: string)
      modifies this`query
      ensures query == Trim(q)
    {
      query := Trim(q);
    }

    method Add(name: string)
      requires Valid()
      modifies this, dao
      ensures Valid()
      ensures State() == AddStep(old(State()), name)
    {
      var trimmed := Trim(name);
      if IsBlank(trimmed) {
        events := events + [Snack("List cannot be empty")];
        return;
      }
      var existing := CountByName(dao.rows, trimmed);
      if existing > 0 {
        events := events + [Snack("List already exists")];
        return;
      }
      var _ := dao.Insert(NewList(trimmed));
      events := events + [Snack("List added"), ScrollToTop];
    }

    method DeleteList(id: int)
      requires Valid()
      modifies this, dao
      ensures Valid()
      ensures State() == DeleteStep(old(State()), id)
    {
      var entity := GetById(dao.rows, id);
      if entity.None? {
        return;
      }
      if entity.value.isTemplate {
        events := events + [Snack("Cannot delete a template/master list")];
        return;
      }
      deleteBackup := deleteBackup[id := entity.value];
      dao.DeleteById(id);
      events := events + [SnackWithAction("List deleted", "Undo", "list_delete", id)];
    }

    method RenameList(id: int, newName: string)
      requires Valid()
      modifies this, dao
      ensures Valid()
      ensures State() == RenameStep(old(State()), id, newName)
    {
      var trimmed := Trim(newName);
      if IsBlank(trimmed) {
        events := events + [Snack("Name cannot be empty")];
        return;
      }
      var entity := GetById(dao.rows, id);
      if entity.None? {
        return;
      }
      if entity.value.isTemplate {
        events := events + [Snack("Cannot rename a template/master list")];
        return;
      }
      var existing := CountByNameExceptId(dao.rows, trimmed, id);
      if existing > 0 {
        events := events + [Snack("List already exists")];
        return;
      }
      var oldName := match GetNameById(dao.rows, id) case Some(n) => n case None => "";
      renameBackup := renameBackup[id := oldName];
      dao.UpdateName(id, trimmed);
      events := events + [SnackWithAction("List renamed", "Undo", "list_rename", id)];
    }

    method HandleUndo(info: UndoInfo)
      requires Valid()
      modifies this, dao
      ensures Valid()
      ensures State() == UndoStep(old(State()), info)
    {
      var id := info.id;
      if info.kind == "list_rename" {
        if id in renameBackup {
          var oldName := renameBackup[id];
          renameBackup := renameBackup - {id};
          dao.UpdateName(id, oldName);
          events := events + [Snack("Rename undone")];
        }
      } else if info.kind == "list_add" {
        dao.DeleteById(id);
        events := events + [Snack("Add undone")];
      } else if info.kind == "list_delete" {
        if id in deleteBackup {
          var entity := deleteBackup[id];
          deleteBackup := deleteBackup - {id};
          var _ := dao.Insert(entity);
          events := events + [Snack("Delete undone"), ScrollToTop];
        }
      } else if info.kind == "state_change" {
        if id in stateBackup {
          var oldState := stateBackup[id];
          stateBackup := stateBackup - {id};
          dao.UpdateState(id, oldState);
          events := events + [Snack("State change undone")];
        }
      }
    }

    method SetTemplate(id: int, isTemplate: bool)
      requires Valid()
      modifies this, dao
      ensures Valid()
      ensures State() == SetTemplateStep(old(State()), id, isTemplate)
    {
      dao.SetTemplateFlag(id, isTemplate);
      events := events + [Snack(if isTemplate then "List marked as template" else "List unmarked as template")];
    }

    method SetState(id: int, newState: string)
      requires Valid()
      modifies this, dao
      ensures Valid()
      ensures State() == SetStateStep(old(State()), id, newState)
    {
      var entity := GetById(dao.rows, id);
      if entity.None? {
        return;
      }
      if entity.value.isTemplate {
        events := events + [Snack("Cannot change state of a template/master list")];
        return;
      }
      if !entity.value.isCloned {
        events := events + [Snack("Only cloned lists have editable states")];
        return;
      }
      var oldState := entity.value.state;
      if !IsTransitionAllowed(oldState, newState) {
        events := events + [Snack("Cannot change state from " + oldState + " to " + newState)];
        return;
      }
      stateBackup := stateBackup[id := oldState];
      dao.UpdateState(id, newState);
      events := events + [SnackWithAction("List state set to " + newState, "Undo", "state_change", id)];
      if newState == ARCHIVED {
        SetShowArchived(true);
        events := events + [SnackWithAction("List archived", "Show", "show_archived", id)];
      }
    }

    method UnarchiveList(id: int)
      requires Valid()
      modifies this, dao
      ensures Valid()
      ensures State() == UnarchiveStep(old(State()), id)
    {
      var entity := GetById(dao.rows, id);
      if entity.None? {
        return;
      }
      if !entity.value.isCloned || entity.value.state != ARCHIVED {
        events := events + [Snack("List is not archived")];
        return;
      }
      SetState(id, DefaultUnarchiveTarget());
    }

    method RequestArchiveConfirmation(id: int)
      modifies this
      ensures State() == Emit(old(State()), [ArchivePrompt.(id := id)])
    {
      events := events + [ArchivePrompt.(id := id)];
    }

    method RequestDeleteConfirmation(id: int)
      modifies this
      ensures State() == Emit(old(State()), [DeletePrompt.(id := id)])
    {
      events := events + [DeletePrompt.(id := id)];
    }

    /** The `items.forEach { itemDao.insert(…) }` loop of `cloneList`. */
    method CopyInto(items: seq<Items.ItemRec>, newId: int)
      requires itemDao.Valid()
      modifies itemDao
      ensures itemDao.Valid()
      ensures itemDao.Store() == CopyItems(old(itemDao.Store()), items, |items|, newId)
    {
      ghost var start := itemDao.Store();
      var i := 0;
      while i < |items|
        invariant 0 <= i <= |items|
        invariant itemDao.Valid()
        invariant itemDao.Store() == CopyItems(start, items, i, newId)
      {
        ghost var before := itemDao.Store();
        var _ := itemDao.Insert(Items.NewItem(newId, items[i].content));
        assert itemDao.Store() == Items.InsertIgnore(before, Items.NewItem(newId, items[i].content)).0;
        i := i + 1;
      }
    }

    /** `cloneList(sourceListId)`, with the formatted time stamp passed in. */
    method CloneList(sourceListId: int, stamp: string)
      requires Valid()
      modifies this, dao, itemDao
      ensures Valid()
      ensures State() == CloneStep(old(State()), sourceListId, stamp)
    {
      var source := GetById(dao.rows, sourceListId);
      if source.None? {
        return;
      }
      if !source.value.isTemplate {
        events := events + [Snack("Only template/master lists can be cloned")];
        return;
      }
      var newName := source.value.name + " " + stamp;
      var newId := dao.Insert(ListRec(0, newName, false, Some(sourceListId), true, PRECHECK));
      var items := Items.GetForList(itemDao.rows, sourceListId);
      CopyInto(items, newId);
      events := events + [SnackWithAction("Cloned list \"" + newName + "\"", "Open", "open_list", newId), ScrollToTop];
    }
  }
}
