/** The smartlist `items` table: its rows, the queries of its DAO as functions
    on the table, and the writes as methods of `ItemDao` that change one row. */
module Items {
  import opened Optional
  import opened Order

  /** A row of `items`: one entry of list `listId`, struck through once done. */
  datatype ItemRec = ItemRec(id: int, listId: int, content: string, isStruck: bool)

  /** `ItemEntity(listId = l, content = c)`: id 0 lets the database number the
      row, and a new item is not struck. */
  function NewItem(listId: int, content: string): ItemRec {
    ItemRec(0, listId, content, false)
  }

  /** The rows by primary key. */
  type ItemTable = m: map<int, ItemRec> | forall k :: k in m ==> m[k].id == k witness map[]

  /** The table together with its AUTOINCREMENT counter, the next id the
      database hands out. */
  datatype ItemStore = ItemStore(rows: ItemTable, nextId: int)

  /** `it` is a row of the table: the row stored under its id. */
  predicate Stored(rows: ItemTable, it: ItemRec) {
    it.id in rows && rows[it.id] == it
  }

  /** Every key is a non-zero id below the counter. */
  predicate WellNumbered(s: ItemStore) {
    s.nextId > 0 && forall k :: k in s.rows ==> k != 0 && k < s.nextId
  }

  /** `@Insert(onConflict = IGNORE)`: id 0 takes the next id; an id already in
      the table leaves it as it is and yields -1; otherwise exactly one row is
      added and its id returned. */
  function InsertIgnore(s: ItemStore, item: ItemRec): (r: (ItemStore, int))
    ensures item.id != 0 && item.id in s.rows ==> r == (s, -1)
    ensures r.0 == s || (r.1 !in s.rows && r.0.rows == s.rows[r.1 := item.(id := r.1)])
    ensures WellNumbered(s) ==> WellNumbered(r.0)
    ensures WellNumbered(s) && item.id == 0 ==>
      r.1 == s.nextId && r.0 == ItemStore(s.rows[s.nextId := item.(id := s.nextId)], s.nextId + 1)
  {
    var id := if item.id == 0 then s.nextId else item.id;
    if id in s.rows then (s, -1)
    else (ItemStore(s.rows[id := item.(id := id)], if id >= s.nextId then id + 1 else s.nextId), id)
  }

  /** `getById` / `SELECT * … WHERE id = :id`: null when there is no such row. */
  function GetById(rows: ItemTable, id: int): (r: Option<ItemRec>)
    ensures r.Some? <==> id in rows
    ensures r.Some? ==> r.value.id == id && Stored(rows, r.value)
  {
    if id in rows then Some(rows[id]) else None
  }

  /** `getContentById`: the content of that row, null when there is none. */
  function GetContentById(rows: ItemTable, id: int): (r: Option<string>)
    ensures r.Some? <==> GetById(rows, id).Some?
    ensures r.Some? ==> r.value == GetById(rows, id).value.content
  {
    if id in rows then Some(rows[id].content) else None
  }

  /** Comes first under `ORDER BY isStruck ASC, id DESC`. */
  predicate ItemBefore(a: ItemRec, b: ItemRec) {
    (!a.isStruck && b.isStruck) || (a.isStruck == b.isStruck && a.id > b.id)
  }

  predicate IdsDescending(s: seq<ItemRec>) {
    forall i, j :: 0 <= i < j < |s| ==> s[i].id > s[j].id
  }

  /** The keys of the rows of list `listId`. */
  function KeysOfList(rows: ItemTable, listId: int): set<int> {
    set k | k in rows && rows[k].listId == listId
  }

  /** The keys of the rows of list `listId` whose struck flag is `struck`. */
  function KeysOfListStruck(rows: ItemTable, listId: int, struck: bool): set<int> {
    set k | k in rows && rows[k].listId == listId && rows[k].isStruck == struck
  }

  /** The rows with keys in `keys`, newest (largest id) first. */
  function RowsByIdDesc(rows: ItemTable, keys: set<int>): (r: seq<ItemRec>)
    requires keys <= rows.Keys
    ensures |r| == |keys|
    ensures forall i :: 0 <= i < |r| ==> Stored(rows, r[i]) && r[i].id in keys
    ensures forall k :: k in keys ==> rows[k] in r
    ensures forall i, j :: 0 <= i < j < |r| ==> r[i].id > r[j].id
  {
    var order := KeysDescending(keys);
    var r := RowsAt(rows, order);
    forall k | k in keys ensures rows[k] in r {
      var i :| 0 <= i < |order| && order[i] == k;
      assert r[i] == rows[k];
    }
    r
  }

  /** `getForList`: exactly the rows of list `listId`, one per item, open ones
      before struck ones and newest first within each group. */
  function GetForList(rows: ItemTable, listId: int): (r: seq<ItemRec>)
    ensures forall i :: 0 <= i < |r| ==> Stored(rows, r[i]) && r[i].listId == listId
    ensures forall k :: k in KeysOfList(rows, listId) ==> rows[k] in r
    ensures forall i, j :: 0 <= i < j < |r| ==> ItemBefore(r[i], r[j])
    ensures |r| == |KeysOfList(rows, listId)|
  {
    var open := RowsByIdDesc(rows, KeysOfListStruck(rows, listId, false));
    var struck := RowsByIdDesc(rows, KeysOfListStruck(rows, listId, true));
    OpenThenStruck(rows, listId, open, struck);
    open + struck
  }

  /** The open rows of a list, newest first, followed by its struck rows,
      newest first, are the rows of that list in `getForList` order. */
  lemma OpenThenStruck(rows: ItemTable, listId: int, open: seq<ItemRec>, struck: seq<ItemRec>)
    requires |open| == |KeysOfListStruck(rows, listId, false)|
    requires |struck| == |KeysOfListStruck(rows, listId, true)|
    requires forall i :: 0 <= i < |open| ==> Stored(rows, open[i]) && open[i].id in KeysOfListStruck(rows, listId, false)
    requires forall i :: 0 <= i < |struck| ==> Stored(rows, struck[i]) && struck[i].id in KeysOfListStruck(rows, listId, true)
    requires forall k :: k in KeysOfListStruck(rows, listId, false) ==> rows[k] in open
    requires forall k :: k in KeysOfListStruck(rows, listId, true) ==> rows[k] in struck
    requires forall i, j :: 0 <= i < j < |open| ==> open[i].id > open[j].id
    requires forall i, j :: 0 <= i < j < |struck| ==> struck[i].id > struck[j].id
    ensures forall i :: 0 <= i < |open + struck| ==> Stored(rows, (open + struck)[i]) && (open + struck)[i].listId == listId
    ensures forall k :: k in KeysOfList(rows, listId) ==> rows[k] in open + struck
    ensures forall i, j :: 0 <= i < j < |open + struck| ==> ItemBefore((open + struck)[i], (open + struck)[j])
    ensures |open + struck| == |KeysOfList(rows, listId)|
  {
    var r := open + struck;
    SplitByStruck(rows, listId);
    forall i | 0 <= i < |r| ensures Stored(rows, r[i]) && r[i].listId == listId && (i < |open| <==> !r[i].isStruck) {
      if i < |open| {
        assert r[i] == open[i];
      } else {
        assert r[i] == struck[i - |open|];
      }
    }
    forall k | k in KeysOfList(rows, listId) ensures rows[k] in r {
      if rows[k].isStruck {
        assert k in KeysOfListStruck(rows, listId, true);
      } else {
        assert k in KeysOfListStruck(rows, listId, false);
      }
    }
    forall i, j | 0 <= i < j < |r| ensures ItemBefore(r[i], r[j]) {
      if j < |open| {
        assert r[i] == open[i] && r[j] == open[j];
      } else if i >= |open| {
        assert r[i] == struck[i - |open|] && r[j] == struck[j - |open|];
      }
    }
  }

  lemma SplitByStruck(rows: ItemTable, listId: int)
    ensures KeysOfList(rows, listId) == KeysOfListStruck(rows, listId, false) + KeysOfListStruck(rows, listId, true)
    ensures |KeysOfList(rows, listId)| == |KeysOfListStruck(rows, listId, false)| + |KeysOfListStruck(rows, listId, true)|
  {
    var a := KeysOfListStruck(rows, listId, false);
    var b := KeysOfListStruck(rows, listId, true);
    assert KeysOfList(rows, listId) == a + b;
    assert a * b == {};
  }

  /** `COUNT(i.id)` of the LEFT JOIN in the listing with counts: the items of
      list `listId`, 0 when it has none. */
  function ItemCount(rows: ItemTable, listId: int): (n: nat)
    ensures n == |GetForList(rows, listId)|
    ensures n == 0 <==> forall k :: k in rows ==> rows[k].listId != listId
  {
    var keys := KeysOfList(rows, listId);
    assert forall k :: k in rows && rows[k].listId == listId ==> k in keys;
    |keys|
  }

  /** `SUM(CASE WHEN i.isStruck = 1 THEN 1 ELSE 0 END)` of the same join: the
      struck items of list `listId`, which are the last `n` rows of `getForList`. */
  function MarkedCount(rows: ItemTable, listId: int): (n: nat)
    ensures n <= ItemCount(rows, listId)
    ensures forall i :: 0 <= i < |GetForList(rows, listId)| ==>
      (GetForList(rows, listId)[i].isStruck <==> i >= ItemCount(rows, listId) - n)
    ensures n == 0 <==> forall k :: k in rows && rows[k].listId == listId ==> !rows[k].isStruck
    ensures n == ItemCount(rows, listId) <==> forall k :: k in rows && rows[k].listId == listId ==> rows[k].isStruck
  {
    NoneFlagged(rows, listId, true);
    NoneFlagged(rows, listId, false);
    SplitByStruck(rows, listId);
    StruckAreLast(rows, listId);
    |KeysOfListStruck(rows, listId, true)|
  }

  /** In `getForList` order the struck rows of a list come last. */
  lemma StruckAreLast(rows: ItemTable, listId: int)
    ensures var r := GetForList(rows, listId);
      forall i :: 0 <= i < |r| ==> (r[i].isStruck <==> i >= |r| - |KeysOfListStruck(rows, listId, true)|)
  {
    var open := RowsByIdDesc(rows, KeysOfListStruck(rows, listId, false));
    var struck := RowsByIdDesc(rows, KeysOfListStruck(rows, listId, true));
    assert GetForList(rows, listId) == open + struck;
    forall i | 0 <= i < |open| ensures !open[i].isStruck {
      assert open[i].id in KeysOfListStruck(rows, listId, false);
    }
    forall i | 0 <= i < |struck| ensures struck[i].isStruck {
      assert struck[i].id in KeysOfListStruck(rows, listId, true);
    }
  }

  /** No row of the list has the flag `struck` exactly when there are no such keys. */
  lemma NoneFlagged(rows: ItemTable, listId: int, struck: bool)
    ensures |KeysOfListStruck(rows, listId, struck)| == 0 <==>
      forall k :: k in rows && rows[k].listId == listId ==> rows[k].isStruck != struck
  {
    var flagged := KeysOfListStruck(rows, listId, struck);
    if |flagged| != 0 {
      var k :| k in flagged;
    } else {
      assert forall k :: k in rows && rows[k].listId == listId && rows[k].isStruck == struck ==> k in flagged;
    }
  }

  lemma SubsetSize<T>(a: set<T>, b: set<T>)
    requires a <= b
    ensures |a| <= |b|
  {
    assert b == a + (b - a);
  }

  /** `countByContent`: the rows of list `listId` whose content is exactly `content`;
      rows of other lists never count. */
  function CountByContent(rows: ItemTable, listId: int, content: string): (n: nat)
    ensures n <= |KeysOfList(rows, listId)|
    ensures n == 0 <==> forall k :: k in rows && rows[k].listId == listId ==> rows[k].content != content
  {
    var matching := set k | k in rows && rows[k].listId == listId && rows[k].content == content;
    SubsetSize(matching, KeysOfList(rows, listId));
    assert forall k :: k in rows && rows[k].listId == listId && rows[k].content == content ==> k in matching;
    |matching|
  }

  /** `countByContentExceptId`: the same count with the row `excludeId` left out. */
  function CountByContentExceptId(rows: ItemTable, listId: int, content: string, excludeId: int): (n: nat)
    ensures n == CountByContent(rows, listId, content)
      - (if excludeId in rows && rows[excludeId].listId == listId && rows[excludeId].content == content then 1 else 0)
  {
    var matching := set k | k in rows && rows[k].listId == listId && rows[k].content == content;
    var others := set k | k in rows && rows[k].listId == listId && rows[k].content == content && k != excludeId;
    assert others == matching - {excludeId};
    |others|
  }

  /** The `ItemDao` of the smartlist database: the table and its id counter,
      changed one statement at a time. */
  class ItemDao {
    var rows: ItemTable
    var nextId: int

    function Store(): ItemStore
      reads this
    {
      ItemStore(rows, nextId)
    }

    ghost predicate Valid()
      reads this
    {
      WellNumbered(Store())
    }

    constructor ()
      ensures Valid() && rows == map[]
    {
      rows := map[];
      nextId := 1;
    }

    /** `insert(item)` with IGNORE on a clash of ids. */
    method Insert(item: ItemRec) returns (rowId: int)
      requires Valid()
      modifies this
      ensures Valid()
      ensures (Store(), rowId) == InsertIgnore(old(Store()), item)
    {
      var r := InsertIgnore(Store(), item);
      rows, nextId, rowId := r.0.rows, r.0.nextId, r.1;
    }

    /** `setIsStruck`: only that row's flag changes. */
    method SetIsStruck(id: int, isStruck: bool)
      requires Valid()
      modifies this
      ensures Valid()
      ensures nextId == old(nextId)
      ensures rows == if id in old(rows) then old(rows)[id := old(rows)[id].(isStruck := isStruck)] else old(rows)
    {
      if id in rows {
        rows := rows[id := rows[id].(isStruck := isStruck)];
      }
    }

    /** `updateContent`: only that row's content changes. */
    method UpdateContent(id: int, newContent: string)
      requires Valid()
      modifies this
      ensures Valid()
      ensures nextId == old(nextId)
      ensures rows == if id in old(rows) then old(rows)[id := old(rows)[id].(content := newContent)] else old(rows)
    {
      if id in rows {
        rows := rows[id := rows[id].(content := newContent)];
      }
    }

    /** `deleteById`: only that row goes. */
    method DeleteById(id: int)
      requires Valid()
      modifies this
      ensures Valid()
      ensures nextId == old(nextId)
      ensures rows == old(rows) - {id}
    {
      rows := rows - {id};
    }
  }
}
