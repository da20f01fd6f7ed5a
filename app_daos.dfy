/** The `app` module's Room database: the `lists` and `items` tables keyed by
    text ids, the `ListDao` and `ItemDao` queries as functions on the tables,
    and their writes as methods. */
module AppDb {
  import opened Optional
  import opened Order

  /** A row of `lists`. Times are milliseconds since the epoch. */
  datatype ListEntity = ListEntity(id: string, title: string, createdAt: int, updatedAt: int)

  /** A row of `items`; `deleted` marks a soft-deleted row that stays stored. */
  datatype ItemEntity = ItemEntity(
    id: string, listId: string, text: string, notes: Option<string>,
    checked: bool, createdAt: int, updatedAt: int, deleted: bool)

  type ListTable = m: map<string, ListEntity> | forall k :: k in m ==> m[k].id == k witness map[]
  type ItemTable = m: map<string, ItemEntity> | forall k :: k in m ==> m[k].id == k witness map[]

  predicate ListStored(rows: ListTable, l: ListEntity) {
    l.id in rows && rows[l.id] == l
  }

  predicate ItemStored(rows: ItemTable, it: ItemEntity) {
    it.id in rows && rows[it.id] == it
  }

  function ListStamp(l: ListEntity): int { l.updatedAt }

  function ItemStamp(it: ItemEntity): int { it.updatedAt }

  /** Every row of `lists`, once each, in no particular order. */
  ghost function AllLists(rows: ListTable): (s: seq<ListEntity>)
    ensures |s| == |rows|
    ensures forall i :: 0 <= i < |s| ==> ListStored(rows, s[i])
    ensures forall k :: k in rows ==> rows[k] in s
    decreases |rows|
  {
    if rows == map[] then [] else
    var k :| k in rows;
    assert (rows - {k}).Keys == rows.Keys - {k};
    [rows[k]] + AllLists(rows - {k})
  }

  /** `observeLists` / `getAllLists`, `SELECT * FROM lists ORDER BY updatedAt DESC`:
      every list once, most recently updated first (SQL leaves ties in no
      particular order, so the order among equal stamps is left open). */
  ghost function ObserveLists(rows: ListTable): (r: seq<ListEntity>)
    ensures |r| == |rows|
    ensures forall i :: 0 <= i < |r| ==> ListStored(rows, r[i])
    ensures forall k :: k in rows ==> rows[k] in r
    ensures NewestFirst(r, ListStamp)
  {
    var found := AllLists(rows);
    var r := SortNewestFirst(found, ListStamp);
    assert forall k :: k in rows ==> rows[k] in r by {
      SameMembers(found, r);
    }
    assert forall i :: 0 <= i < |r| ==> ListStored(rows, r[i]) by {
      AllOfRearranged(found, r, l => ListStored(rows, l));
    }
    r
  }

  /** The keys of the rows `observeItems(listId)` selects: that list's rows not soft-deleted. */
  function VisibleKeys(rows: ItemTable, listId: string): set<string> {
    set k | k in rows && rows[k].listId == listId && !rows[k].deleted
  }

  /** Every row of `items`, once each, in no particular order. */
  ghost function AllItems(rows: ItemTable): (s: seq<ItemEntity>)
    ensures |s| == |rows|
    ensures forall i :: 0 <= i < |s| ==> ItemStored(rows, s[i])
    ensures forall k :: k in rows ==> rows[k] in s
    decreases |rows|
  {
    if rows == map[] then [] else
    var k :| k in rows;
    assert (rows - {k}).Keys == rows.Keys - {k};
    [rows[k]] + AllItems(rows - {k})
  }

  /** The live rows of list `listId`, once each, in no particular order. */
  ghost function LiveItems(rows: ItemTable, listId: string): (s: seq<ItemEntity>)
    ensures |s| == |VisibleKeys(rows, listId)|
    ensures forall i :: 0 <= i < |s| ==> ItemStored(rows, s[i]) && s[i].listId == listId && !s[i].deleted
    ensures forall k :: k in VisibleKeys(rows, listId) ==> rows[k] in s
  {
    var live: ItemTable := map k | k in VisibleKeys(rows, listId) :: rows[k];
    assert live.Keys == VisibleKeys(rows, listId);
    AllItems(live)
  }

  /** `observeItems` / `getItemsForList`, `SELECT * FROM items WHERE listId = :listId
      AND deleted = 0 ORDER BY updatedAt DESC`: exactly the live rows of the
      list, most recently updated first. */
  ghost function ObserveItems(rows: ItemTable, listId: string): (r: seq<ItemEntity>)
    ensures |r| == |VisibleKeys(rows, listId)|
    ensures forall i :: 0 <= i < |r| ==> ItemStored(rows, r[i]) && r[i].listId == listId && !r[i].deleted
    ensures forall k :: k in VisibleKeys(rows, listId) ==> rows[k] in r
    ensures NewestFirst(r, ItemStamp)
  {
    var found := LiveItems(rows, listId);
    var r := SortNewestFirst(found, ItemStamp);
    assert forall k :: k in VisibleKeys(rows, listId) ==> rows[k] in r by {
      SameMembers(found, r);
    }
    assert forall i :: 0 <= i < |r| ==> ItemStored(rows, r[i]) && r[i].listId == listId && !r[i].deleted by {
      AllOfRearranged(found, r, it => ItemStored(rows, it) && it.listId == listId && !it.deleted);
    }
    r
  }

  /** An item is observed for a list exactly when it is a live row of that list. */
  lemma InObserveItems(rows: ItemTable, listId: string, it: ItemEntity)
    ensures it in ObserveItems(rows, listId) <==> ItemStored(rows, it) && it.listId == listId && !it.deleted
  {
    if ItemStored(rows, it) && it.listId == listId && !it.deleted {
      assert it.id in VisibleKeys(rows, listId);
    }
  }

  /** `@Update`: the row with the same primary key takes the new value; with no
      such row nothing changes. */
  function ListUpdated(rows: ListTable, l: ListEntity): (r: ListTable)
    ensures r.Keys == rows.Keys
    ensures l.id in rows ==> ListStored(r, l)
    ensures forall k :: k in rows && k != l.id ==> r[k] == rows[k]
  {
    if l.id in rows then rows[l.id := l] else rows
  }

  /** Writing back a row exactly as it is stored leaves the table as it was. */
  lemma StoredListUpdateIsNoop(rows: ListTable, l: ListEntity)
    requires ListStored(rows, l)
    ensures ListUpdated(rows, l) == rows
  {
    assert rows[l.id := l] == rows;
  }

  function ItemUpdated(rows: ItemTable, it: ItemEntity): (r: ItemTable)
    ensures r.Keys == rows.Keys
    ensures it.id in rows ==> ItemStored(r, it)
    ensures forall k :: k in rows && k != it.id ==> r[k] == rows[k]
  {
    if it.id in rows then rows[it.id := it] else rows
  }

  /** `UPDATE items SET deleted = 1, updatedAt = :updatedAt WHERE id IN (:itemIds)`:
      the rows named are marked deleted and stamped, and stay stored; every
      other row is untouched. */
  function SoftDeleted(rows: ItemTable, ids: set<string>, updatedAt: int): (r: ItemTable)
    ensures r.Keys == rows.Keys
    ensures forall k :: k in rows && k in ids ==>
      r[k] == rows[k].(deleted := true, updatedAt := updatedAt)
    ensures forall k :: k in rows && k !in ids ==> r[k] == rows[k]
  {
    map k | k in rows :: if k in ids then rows[k].(deleted := true, updatedAt := updatedAt) else rows[k]
  }

  /** After a soft delete a list shows exactly the rows it showed before minus the ones named. */
  lemma SoftDeleteHides(rows: ItemTable, ids: set<string>, updatedAt: int, listId: string)
    ensures VisibleKeys(SoftDeleted(rows, ids, updatedAt), listId) == VisibleKeys(rows, listId) - ids
  {
    var after := SoftDeleted(rows, ids, updatedAt);
    assert forall k :: k in VisibleKeys(after, listId) ==> k in VisibleKeys(rows, listId) - ids;
    assert forall k :: k in VisibleKeys(rows, listId) - ids ==> k in VisibleKeys(after, listId);
  }

  /** Soft-deleting several ids at once is soft-deleting them one after another
      with the same stamp. */
  lemma SoftDeleteManyIsStepwise(rows: ItemTable, id: string, ids: set<string>, updatedAt: int)
    ensures SoftDeleted(SoftDeleted(rows, {id}, updatedAt), ids, updatedAt) == SoftDeleted(rows, ids + {id}, updatedAt)
  {
    var a := SoftDeleted(SoftDeleted(rows, {id}, updatedAt), ids, updatedAt);
    var b := SoftDeleted(rows, ids + {id}, updatedAt);
    assert forall k :: k in a ==> a[k] == b[k];
  }

  /** The app's `ListDao` over the `lists` table. */
  class ListDao {
    var rows: ListTable

    constructor ()
      ensures rows == map[]
    {
      rows := map[];
    }

    /** `insert` with REPLACE: the row with that id, old or new, becomes `l`. */
    method Insert(l: ListEntity)
      modifies this
      ensures rows == old(rows)[l.id := l]
    {
      rows := rows[l.id := l];
    }

    /** `delete`: the row with the primary key of `l` goes. */
    method Delete(l: ListEntity)
      modifies this
      ensures rows == old(rows) - {l.id}
    {
      rows := rows - {l.id};
    }

    method Update(l: ListEntity)
      modifies this
      ensures rows == ListUpdated(old(rows), l)
    {
      if l.id in rows {
        rows := rows[l.id := l];
      }
    }
  }

  /** The app's `ItemDao` over the `items` table. */
  class ItemDao {
    var rows: ItemTable

    constructor ()
      ensures rows == map[]
    {
      rows := map[];
    }

    /** `insert` with REPLACE: the row with that id, old or new, becomes `it`. */
    method Insert(it: ItemEntity)
      modifies this
      ensures rows == old(rows)[it.id := it]
    {
      rows := rows[it.id := it];
    }

    method Update(it: ItemEntity)
      modifies this
      ensures rows == ItemUpdated(old(rows), it)
    {
      if it.id in rows {
        rows := rows[it.id := it];
      }
    }

    /** `softDelete(itemId, updatedAt)`: one statement on at most one row. */
    method SoftDelete(itemId: string, updatedAt: int)
      modifies this
      ensures rows == SoftDeleted(old(rows), {itemId}, updatedAt)
    {
      if itemId in rows {
        rows := rows[itemId := rows[itemId].(deleted := true, updatedAt := updatedAt)];
      }
      assert forall k :: k in rows ==> rows[k] == SoftDeleted(old(rows), {itemId}, updatedAt)[k];
    }

    /** `softDeleteMany(itemIds, updatedAt)`: one statement on every row named. */
    method SoftDeleteMany(itemIds: seq<string>, updatedAt: int)
      modifies this
      ensures rows == SoftDeleted(old(rows), (set i | i in itemIds), updatedAt)
    {
      rows := SoftDeleted(rows, (set i | i in itemIds), updatedAt);
    }
  }
}
