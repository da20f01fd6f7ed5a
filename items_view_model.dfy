/** The smartlist items screen's view model: the items of one list, narrowed by
    a search query, and the add action guarded against blank content. */
module ItemUi {
  import opened Text
  import opened Items

  /** `list.filter { it.content.contains(q, ignoreCase = true) }`: the entries
      whose content holds the query, in their original order. */
  function FilterByContent(s: seq<ItemRec>, q: string): (r: seq<ItemRec>)
    ensures |r| <= |s|
    ensures forall i :: 0 <= i < |r| ==> r[i] in s && ContainsIgnoreCase(r[i].content, q)
    ensures forall i :: 0 <= i < |s| && ContainsIgnoreCase(s[i].content, q) ==> s[i] in r
  {
    if s == [] then []
    else
      var rest := FilterByContent(s[1..], q);
      assert s == [s[0]] + s[1..];
      assert forall i :: 0 <= i < |rest| ==> rest[i] in s;
      assert forall i :: 1 <= i < |s| ==> s[i] == s[1..][i - 1];
      if ContainsIgnoreCase(s[0].content, q) then
        [s[0]] + rest
      else
        rest
  }

  /** Filtering keeps the relative order of what it keeps. */
  lemma {:induction false} FilterKeepsOrder(s: seq<ItemRec>, q: string)
    requires forall i, j :: 0 <= i < j < |s| ==> ItemBefore(s[i], s[j])
    ensures forall i, j :: 0 <= i < j < |FilterByContent(s, q)| ==>
      ItemBefore(FilterByContent(s, q)[i], FilterByContent(s, q)[j])
  {
    if s != [] {
      var rest := FilterByContent(s[1..], q);
      FilterKeepsOrder(s[1..], q);
      if ContainsIgnoreCase(s[0].content, q) {
        forall j | 0 <= j < |rest| ensures ItemBefore(s[0], rest[j]) {
          var m :| 0 <= m < |s[1..]| && s[1..][m] == rest[j];
          assert s[m + 1] == rest[j];
        }
      }
    }
  }

  /** Filtering the rows of a list keeps exactly its rows that match. */
  lemma FilterOfList(rows: ItemTable, listId: int, q: string)
    ensures forall i :: 0 <= i < |FilterByContent(GetForList(rows, listId), q)| ==>
      Stored(rows, FilterByContent(GetForList(rows, listId), q)[i]) &&
      FilterByContent(GetForList(rows, listId), q)[i].listId == listId
    ensures forall k :: k in KeysOfList(rows, listId) && ContainsIgnoreCase(rows[k].content, q) ==>
      rows[k] in FilterByContent(GetForList(rows, listId), q)
  {
    var all := GetForList(rows, listId);
    var r := FilterByContent(all, q);
    forall i | 0 <= i < |r| ensures Stored(rows, r[i]) && r[i].listId == listId {
      var j :| 0 <= j < |all| && all[j] == r[i];
    }
    forall k | k in KeysOfList(rows, listId) && ContainsIgnoreCase(rows[k].content, q) ensures rows[k] in r {
      var j :| 0 <= j < |all| && all[j] == rows[k];
    }
  }

  /** The `items` flow for list `listId` under query `q`: every item of the
      list when the query is blank, otherwise those whose content holds it;
      either way in `getForList` order. */
  function Shown(rows: ItemTable, listId: int, q: string): (r: seq<ItemRec>)
    ensures IsBlank(q) ==> r == GetForList(rows, listId)
    ensures forall i :: 0 <= i < |r| ==>
      Stored(rows, r[i]) && r[i].listId == listId && (IsBlank(q) || ContainsIgnoreCase(r[i].content, q))
    ensures forall k :: k in KeysOfList(rows, listId) && (IsBlank(q) || ContainsIgnoreCase(rows[k].content, q)) ==>
      rows[k] in r
    ensures forall i, j :: 0 <= i < j < |r| ==> ItemBefore(r[i], r[j])
  {
    var all := GetForList(rows, listId);
    if IsBlank(q) then all
    else
      FilterOfList(rows, listId, q);
      FilterKeepsOrder(all, q);
      FilterByContent(all, q)
  }

  /** An item is shown exactly when it is a row of this list that the query lets through. */
  lemma InShown(rows: ItemTable, listId: int, q: string, it: ItemRec)
    ensures it in Shown(rows, listId, q) <==>
      Stored(rows, it) && it.listId == listId && (IsBlank(q) || ContainsIgnoreCase(it.content, q))
  {
    var r := Shown(rows, listId, q);
    if Stored(rows, it) && it.listId == listId && (IsBlank(q) || ContainsIgnoreCase(it.content, q)) {
      assert it.id in KeysOfList(rows, listId);
    }
  }

  /** Adding non-blank content to a well-numbered table adds exactly one row:
      the next id, this list, that content, not struck. The list then has one
      more item and every other list keeps its count. */
  lemma AddedItem(s: ItemStore, listId: int, content: string)
    requires WellNumbered(s)
    ensures s.nextId !in s.rows
    ensures InsertIgnore(s, NewItem(listId, content)).0.rows ==
      s.rows[s.nextId := ItemRec(s.nextId, listId, content, false)]
    ensures ItemCount(InsertIgnore(s, NewItem(listId, content)).0.rows, listId) == ItemCount(s.rows, listId) + 1
    ensures forall other :: other != listId ==>
      ItemCount(InsertIgnore(s, NewItem(listId, content)).0.rows, other) == ItemCount(s.rows, other)
  {
    var after := InsertIgnore(s, NewItem(listId, content)).0.rows;
    assert KeysOfList(after, listId) == KeysOfList(s.rows, listId) + {s.nextId};
    forall other | other != listId
      ensures ItemCount(after, other) == ItemCount(s.rows, other)
    {
      assert KeysOfList(after, other) == KeysOfList(s.rows, other);
    }
  }

  /** The smartlist `ItemsViewModel` of list `listId`. */
  class ItemsViewModel {
    const listId: int
    const dao: ItemDao
    var query: string

    constructor (dao: ItemDao, listId: int)
      ensures this.dao == dao && this.listId == listId && query == ""
    {
      this.dao := dao;
      this.listId := listId;
      query := "";
    }

    /** The `items` flow, read at this moment. */
    function Items(): seq<ItemRec>
      reads this, dao
    {
      Shown(dao.rows, listId, query)
    }

    /** `setQuery(q)`: stores the query as given, untrimmed. */
    method SetQuery(q: string)
      modifies this
      ensures query == q
    {
      query := q;
    }

    /** `add(content)`: blank content is ignored; otherwise the content, as
        given, becomes a new item of this list. */
    method Add(content: string)
      requires dao.Valid()
      modifies dao
      ensures dao.Valid()
      ensures IsBlank(content) ==> dao.Store() == old(dao.Store())
      ensures !IsBlank(content) ==> dao.Store() == InsertIgnore(old(dao.Store()), NewItem(listId, content)).0
    {
      if IsBlank(content) {
        return;
      }
      var _ := dao.Insert(NewItem(listId, content));
    }
  }
}
