/** The `app` module's `Repository`: the writes the screens make, each a guard
    or a copy followed by one DAO statement. The clock reading
    (`System.currentTimeMillis`) and the fresh id (`UUID.randomUUID`) are
    passed in as `now` and `id`. */
module AppRepo {
  import opened Optional
  import opened Text
  import opened AppDb

  /** The row `addItem(listId, text)` writes: no notes, not checked, not
      deleted, created and updated now. */
  function NewItemEntity(id: string, listId: string, text: string, now: int): ItemEntity {
    ItemEntity(id, listId, text, None, false, now, now, false)
  }

  /** The table after `addItem`: unchanged for blank text; otherwise the new
      row is stored under its id (REPLACE) and no other row changes. */
  function AddItemRows(rows: ItemTable, listId: string, text: string, id: string, now: int): (r: ItemTable)
    ensures IsBlank(text) ==> r == rows
    ensures !IsBlank(text) ==> r.Keys == rows.Keys + {id} && ItemStored(r, NewItemEntity(id, listId, text, now))
    ensures forall k :: k in rows && k != id ==> k in r && r[k] == rows[k]
  {
    if IsBlank(text) then rows else rows[id := NewItemEntity(id, listId, text, now)]
  }

  /** `item.copy(checked = !item.checked, updatedAt = now)`. */
  function Toggled(item: ItemEntity, now: int): ItemEntity {
    item.(checked := !item.checked, updatedAt := now)
  }

  /** `item.copy(deleted = false, updatedAt = now)`. */
  function Restored(item: ItemEntity, now: int): ItemEntity {
    item.(deleted := false, updatedAt := now)
  }

  /** Toggling twice gives back the item as it was but for its stamp; a toggle
      changes nothing but the flag and the stamp. */
  lemma ToggleTwice(item: ItemEntity, t1: int, t2: int)
    ensures Toggled(item, t1).checked != item.checked
    ensures Toggled(item, t1).(checked := item.checked, updatedAt := item.updatedAt) == item
    ensures Toggled(Toggled(item, t1), t2) == item.(updatedAt := t2)
  {
  }

  /** A non-blank item added to a list is observed in that list. */
  lemma AddedItemObserved(rows: ItemTable, listId: string, text: string, id: string, now: int)
    requires !IsBlank(text)
    ensures NewItemEntity(id, listId, text, now) in ObserveItems(AddItemRows(rows, listId, text, id, now), listId)
  {
    InObserveItems(AddItemRows(rows, listId, text, id, now), listId, NewItemEntity(id, listId, text, now));
  }

  /** Adding a non-blank item grows the list's live rows by exactly that one. */
  lemma AddedItemIsTheOnlyNewRow(rows: ItemTable, listId: string, text: string, id: string, now: int)
    requires !IsBlank(text)
    ensures VisibleKeys(AddItemRows(rows, listId, text, id, now), listId) == VisibleKeys(rows, listId) + {id}
  {
    var after := AddItemRows(rows, listId, text, id, now);
    forall k | k in VisibleKeys(rows, listId) + {id} ensures k in VisibleKeys(after, listId) {
      if k != id {
        assert after[k] == rows[k];
      }
    }
    assert forall k :: k in VisibleKeys(after, listId) ==> k in VisibleKeys(rows, listId) + {id};
  }

  /** The scenario of the repository guard test: on a list with no live items,
      adding whitespace leaves it empty, and adding "hello" then shows exactly
      one item, whose text is "hello". */
  lemma BlankIgnoredThenPersisted(rows: ItemTable, listId: string, id1: string, id2: string, t1: int, t2: int)
    requires VisibleKeys(rows, listId) == {}
    ensures ObserveItems(AddItemRows(rows, listId, "   ", id1, t1), listId) == []
    ensures ObserveItems(AddItemRows(AddItemRows(rows, listId, "   ", id1, t1), listId, "hello", id2, t2), listId)
      == [NewItemEntity(id2, listId, "hello", t2)]
  {
    assert IsBlank("   ");
    assert "hello"[0] == 'h';
    var after := AddItemRows(rows, listId, "hello", id2, t2);
    AddedItemIsTheOnlyNewRow(rows, listId, "hello", id2, t2);
    var r := ObserveItems(after, listId);
    assert |r| == 1;
    assert r[0].id in VisibleKeys(after, listId);
  }

  /** A soft-deleted row stays stored but leaves every listing. */
  lemma DeletedIsHiddenButKept(rows: ItemTable, itemId: string, now: int, listId: string)
    requires itemId in rows
    ensures itemId in SoftDeleted(rows, {itemId}, now)
    ensures SoftDeleted(rows, {itemId}, now)[itemId] == rows[itemId].(deleted := true, updatedAt := now)
    ensures forall it :: it in ObserveItems(SoftDeleted(rows, {itemId}, now), listId) ==> it.id != itemId
  {
    var after := SoftDeleted(rows, {itemId}, now);
    forall it | it in ObserveItems(after, listId) ensures it.id != itemId {
      InObserveItems(after, listId, it);
    }
  }

  /** Restoring an item makes it live again in its list, whatever the table held before. */
  lemma RestoredIsObserved(rows: ItemTable, item: ItemEntity, now: int)
    ensures Restored(item, now) in ObserveItems(rows[item.id := Restored(item, now)], item.listId)
  {
    InObserveItems(rows[item.id := Restored(item, now)], item.listId, Restored(item, now));
  }

  /** Soft-deleting a live item and then restoring it gives back the table as it
      was but for that row's stamp. */
  lemma DeleteRestoreRoundTrip(rows: ItemTable, item: ItemEntity, t1: int, t2: int)
    requires ItemStored(rows, item) && !item.deleted
    ensures SoftDeleted(rows, {item.id}, t1)[item.id := Restored(item, t2)] == rows[item.id := item.(updatedAt := t2)]
  {
    var deleted := SoftDeleted(rows, {item.id}, t1);
    var after := deleted[item.id := Restored(item, t2)];
    var expected := rows[item.id := item.(updatedAt := t2)];
    forall k | k in after ensures after[k] == expected[k] {
      if k != item.id {
        assert after[k] == deleted[k];
      }
    }
  }

  /** The app's repository over its two DAOs. */
  class Repository {
    const listDao: ListDao
    const itemDao: ItemDao

    constructor (listDao: ListDao, itemDao: ItemDao)
      ensures this.listDao == listDao && this.itemDao == itemDao
    {
      this.listDao := listDao;
      this.itemDao := itemDao;
    }

    /** `createList(title)`: a new list whose creation and update times are the same reading of the clock. */
    method CreateList(title: string, id: string, now: int)
      modifies listDao
      ensures listDao.rows == old(listDao.rows)[id := ListEntity(id, title, now, now)]
    {
      listDao.Insert(ListEntity(id, title, now, now));
    }

    /** `addItem(listId, text)`: blank text is refused before any write. */
    method AddItem(listId: string, text: string, id: string, now: int)
      modifies itemDao
      ensures itemDao.rows == AddItemRows(old(itemDao.rows), listId, text, id, now)
    {
      if IsBlank(text) {
        return;
      }
      itemDao.Insert(NewItemEntity(id, listId, text, now));
    }

    /** `toggleItemChecked(item)`: writes the copy with the flag flipped. */
    method ToggleItemChecked(item: ItemEntity, now: int)
      modifies itemDao
      ensures itemDao.rows == ItemUpdated(old(itemDao.rows), Toggled(item, now))
    {
      itemDao.Update(Toggled(item, now));
    }

    /** `deleteItemSoft(itemId)`. */
    method DeleteItemSoft(itemId: string, now: int)
      modifies itemDao
      ensures itemDao.rows == SoftDeleted(old(itemDao.rows), {itemId}, now)
    {
      itemDao.SoftDelete(itemId, now);
    }

    /** `restoreItem(item)`: re-inserts the copy marked live, replacing the stored row. */
    method RestoreItem(item: ItemEntity, now: int)
      modifies itemDao
      ensures itemDao.rows == old(itemDao.rows)[item.id := Restored(item, now)]
    {
      itemDao.Insert(Restored(item, now));
    }

    /** `updateList(list)`, called by the lists screen's view model. */
    method UpdateList(l: ListEntity)
      modifies listDao
      ensures listDao.rows == ListUpdated(old(listDao.rows), l)
    {
      listDao.Update(l);
    }

    /** `updateItem(item)`, called by the items screen's view model. */
    method UpdateItem(item: ItemEntity)
      modifies itemDao
      ensures itemDao.rows == ItemUpdated(old(itemDao.rows), item)
    {
      itemDao.Update(item);
    }

    /** `deleteItemsSoft(itemIds)`, called by the items screen's view model. */
    method DeleteItemsSoft(itemIds: seq<string>, now: int)
      modifies itemDao
      ensures itemDao.rows == SoftDeleted(old(itemDao.rows), (set i | i in itemIds), now)
    {
      itemDao.SoftDeleteMany(itemIds, now);
    }
  }
}
