/** The archived app variant's `ItemsViewModel`: the item edit dialog, and the
    single and bulk delete, restore and add actions, each handed to the
    repository. Every clock reading is passed in. */
module ArchiveItemsUi {
  import opened Optional
  import opened Text
  import opened AppDb
  import opened AppRepo
  import opened Order

  /** The dialog: the item being edited (`None`: no dialog) and the field's text. */
  datatype EditState = EditState(editing: Option<ItemEntity>, text: string)

  /** What `saveEdit` does to the dialog state `st` at time `now`: the row it
      hands to `updateItem`, if any, and the dialog afterwards. Without an item
      being edited, or with text that trims to nothing, nothing is written and
      the dialog stays open; otherwise the edited item is written with the
      trimmed text and a new stamp, every other field as it was, and the
      dialog closes. */
  function SaveStep(st: EditState, now: int): (r: (Option<ItemEntity>, EditState))
    ensures r.0.None? <==> st.editing.None? || IsBlank(st.text)
    ensures r.0.None? ==> r.1 == st
    ensures r.0.Some? ==>
      r.0.value == st.editing.value.(text := r.0.value.text, updatedAt := now) && r.1 == EditState(None, st.text)
    ensures r.0.Some? ==> r.0.value.text == Trim(st.text)
    ensures r.0.Some? ==>
      r.0.value.text != [] && !IsWhitespace(r.0.value.text[0]) && !IsWhitespace(r.0.value.text[|r.0.value.text| - 1])
  {
    match st.editing
    case None => (None, st)
    case Some(current) =>
      var newText := Trim(st.text);
      if newText == [] then (None, st)
      else (Some(current.(text := newText, updatedAt := now)), EditState(None, st.text))
  }

  /** Opening the dialog on an item and saving at once writes the item back
      with its text trimmed and a new stamp. */
  lemma StartThenSave(item: ItemEntity, now: int)
    requires !IsBlank(item.text)
    ensures SaveStep(EditState(Some(item), item.text), now).0 == Some(item.(text := Trim(item.text), updatedAt := now))
  {
  }

  /** Once the dialog is cancelled, or a save has gone through, saving writes nothing. */
  lemma ClosedDialogSavesNothing(st: EditState, t1: int, t2: int)
    ensures SaveStep(st.(editing := None), t1).0 == None
    ensures SaveStep(st, t1).0.Some? ==> SaveStep(SaveStep(st, t1).1, t2).0 == None
  {
  }

  /** No item of `items` has id `k`. */
  predicate NotAmong(items: seq<ItemEntity>, k: string) {
    forall i :: 0 <= i < |items| ==> items[i].id != k
  }

  /** The table after `restoreItems(items)`, the item `i` restored at
      `stamps[i]`: one REPLACE per item, in order. Every item's id is then a
      live row, no row is removed, and the rows of other ids are untouched. */
  function RestoreAll(rows: ItemTable, items: seq<ItemEntity>, stamps: seq<int>): (r: ItemTable)
    requires |stamps| == |items|
    ensures forall i :: 0 <= i < |items| ==> items[i].id in r && !r[items[i].id].deleted
    ensures forall k :: k in rows ==> k in r
    ensures forall k :: k in r && NotAmong(items, k) ==> k in rows && r[k] == rows[k]
    decreases |items|
  {
    if items == [] then rows
    else
      var n := |items| - 1;
      var before := RestoreAll(rows, items[..n], stamps[..n]);
      var r := before[items[n].id := Restored(items[n], stamps[n])];
      forall i | 0 <= i < |items| ensures items[i].id in r && !r[items[i].id].deleted {
        if i < n && items[i].id != items[n].id {
          assert items[..n][i] == items[i];
        }
      }
      forall k | k in r && NotAmong(items, k) ensures k in rows && r[k] == rows[k] {
        assert items[n].id != k;
        assert NotAmong(items[..n], k) by {
          forall i | 0 <= i < n ensures items[..n][i].id != k {
            assert items[..n][i] == items[i];
          }
        }
      }
      r
  }

  /** The item at position `i` is the last one in `items` with its id. */
  predicate LastWithId(items: seq<ItemEntity>, i: int)
    requires 0 <= i < |items|
  {
    forall j :: i < j < |items| ==> items[j].id != items[i].id
  }

  /** Each item of `restoreItems` ends up stored exactly as its restored copy,
      unless a later item of the batch has the same id. */
  lemma {:induction false} RestoreAllKeepsLast(rows: ItemTable, items: seq<ItemEntity>, stamps: seq<int>)
    requires |stamps| == |items|
    ensures forall i :: 0 <= i < |items| && LastWithId(items, i) ==>
      RestoreAll(rows, items, stamps)[items[i].id] == Restored(items[i], stamps[i])
    decreases |items|
  {
    if items != [] {
      var n := |items| - 1;
      var before := RestoreAll(rows, items[..n], stamps[..n]);
      var after := RestoreAll(rows, items, stamps);
      assert after == before[items[n].id := Restored(items[n], stamps[n])];
      RestoreAllKeepsLast(rows, items[..n], stamps[..n]);
      forall i | 0 <= i < |items| && LastWithId(items, i)
        ensures after[items[i].id] == Restored(items[i], stamps[i])
      {
        if i < n {
          assert items[..n][i] == items[i] && stamps[..n][i] == stamps[i];
          assert LastWithId(items[..n], i);
          assert items[n].id != items[i].id;
        }
      }
    }
  }

  /** With no id repeated in the batch, every restored item is observed again
      in its list, as its restored copy. */
  lemma RestoredItemsObserved(rows: ItemTable, items: seq<ItemEntity>, stamps: seq<int>)
    requires |stamps| == |items|
    requires forall i, j :: 0 <= i < j < |items| ==> items[i].id != items[j].id
    ensures forall i :: 0 <= i < |items| ==>
      Restored(items[i], stamps[i]) in ObserveItems(RestoreAll(rows, items, stamps), items[i].listId)
  {
    RestoreAllKeepsLast(rows, items, stamps);
    var after := RestoreAll(rows, items, stamps);
    forall i | 0 <= i < |items| ensures Restored(items[i], stamps[i]) in ObserveItems(after, items[i].listId) {
      assert LastWithId(items, i);
      InObserveItems(after, items[i].listId, Restored(items[i], stamps[i]));
    }
  }

  class ItemsViewModel {
    const repo: Repository
    var editingItem: Option<ItemEntity>
    var editingText: string

    constructor (repo: Repository)
      ensures this.repo == repo && editingItem == None && editingText == ""
    {
      this.repo := repo;
      editingItem := None;
      editingText := "";
    }

    function Dialog(): EditState
      reads this
    {
      EditState(editingItem, editingText)
    }

    /** `items(listId)`: exactly the live stored items of that list, newest first. */
    ghost function Items(listId: string): (r: seq<ItemEntity>)
      reads repo, repo.itemDao
      ensures forall it :: it in r <==> ItemStored(repo.itemDao.rows, it) && it.listId == listId && !it.deleted
      ensures NewestFirst(r, ItemStamp)
    {
      var r := ObserveItems(repo.itemDao.rows, listId);
      assert forall it :: it in r <==> ItemStored(repo.itemDao.rows, it) && it.listId == listId && !it.deleted by {
        forall it: ItemEntity {
          InObserveItems(repo.itemDao.rows, listId, it);
        }
      }
      r
    }

    /** `startEdit(item)`: opens the dialog on `item` with its current text. */
    method StartEdit(item: ItemEntity)
      modifies this
      ensures Dialog() == EditState(Some(item), item.text)
    {
      editingItem := Some(item);
      editingText := item.text;
    }

    /** `updateEditingText(text)`: only the field's text changes. */
    method UpdateEditingText(text: string)
      modifies this
      ensures Dialog() == old(Dialog()).(text := text)
    {
      editingText := text;
    }

    /** `cancelEdit()`: closes the dialog; the field's text is left as it was. */
    method CancelEdit()
      modifies this
      ensures Dialog() == old(Dialog()).(editing := None)
    {
      editingItem := None;
    }

    /** `saveEdit()`: the update and the closing of the dialog, as one step. */
    method SaveEdit(now: int)
      modifies this, repo.itemDao
      ensures Dialog() == SaveStep(old(Dialog()), now).1
      ensures repo.itemDao.rows ==
        match SaveStep(old(Dialog()), now).0
        case None => old(repo.itemDao.rows)
        case Some(w) => ItemUpdated(old(repo.itemDao.rows), w)
    {
      if editingItem.None? {
        return;
      }
      var current := editingItem.value;
      var newText := Trim(editingText);
      if newText == [] {
        return;
      }
      repo.UpdateItem(current.(text := newText, updatedAt := now));
      editingItem := None;
    }

    /** `deleteItem(itemId)`. */
    method DeleteItem(itemId: string, now: int)
      modifies repo.itemDao
      ensures repo.itemDao.rows == SoftDeleted(old(repo.itemDao.rows), {itemId}, now)
    {
      repo.DeleteItemSoft(itemId, now);
    }

    /** `restoreItem(item)`. */
    method RestoreItem(item: ItemEntity, now: int)
      modifies repo.itemDao
      ensures repo.itemDao.rows == old(repo.itemDao.rows)[item.id := Restored(item, now)]
    {
      repo.RestoreItem(item, now);
    }

    /** `deleteItems(itemIds)`: one statement for the whole selection. */
    method DeleteItems(itemIds: seq<string>, now: int)
      modifies repo.itemDao
      ensures repo.itemDao.rows == SoftDeleted(old(repo.itemDao.rows), (set i | i in itemIds), now)
    {
      repo.DeleteItemsSoft(itemIds, now);
    }

    /** `restoreItems(items)`: restores the items one after another, item `i`
        at clock reading `stamps[i]`. */
    method RestoreItems(items: seq<ItemEntity>, stamps: seq<int>)
      requires |stamps| == |items|
      modifies repo.itemDao
      ensures repo.itemDao.rows == RestoreAll(old(repo.itemDao.rows), items, stamps)
    {
      ghost var start := repo.itemDao.rows;
      for i := 0 to |items|
        invariant repo.itemDao.rows == RestoreAll(start, items[..i], stamps[..i])
      {
        assert items[..i + 1][..i] == items[..i] && stamps[..i + 1][..i] == stamps[..i];
        repo.RestoreItem(items[i], stamps[i]);
      }
      assert items[..|items|] == items && stamps[..|stamps|] == stamps;
    }

    /** `addItem(listId, text)`. */
    method AddItem(listId: string, text: string, id: string, now: int)
      modifies repo.itemDao
      ensures repo.itemDao.rows == AddItemRows(old(repo.itemDao.rows), listId, text, id, now)
    {
      repo.AddItem(listId, text, id, now);
    }
  }
}
