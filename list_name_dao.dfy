/** The smartlist `list_names` table: its rows, the listing and lookup queries
    of `ListNameDao` as functions on the table, and the single-row writes as
    methods of the `ListNameDao` class. */
module ListNames {
  import opened Optional
  import opened Order
  import opened Text
  import Items
  import opened ListStateManager

  /** A row of `list_names`: a plain list, a template (master) list, or a list
      cloned from a template, which alone moves through the lifecycle states. */
  datatype ListRec = ListRec(
    id: int,
    name: string,
    isTemplate: bool,
    masterId: Option<int>,
    isCloned: bool,
    state: string)

  /** `ListNameEntity(name = n)`: id 0 lets the database number the row; every
      other column takes its default. */
  function NewList(name: string): ListRec {
    ListRec(0, name, false, None, false, PRECHECK)
  }

  /** The rows by primary key. */
  type ListTable = m: map<int, ListRec> | forall k :: k in m ==> m[k].id == k witness map[]

  /** The table together with its AUTOINCREMENT counter. */
  datatype ListStore = ListStore(rows: ListTable, nextId: int)

  /** Every key is a non-zero id below the counter. */
  predicate WellNumbered(s: ListStore) {
    s.nextId > 0 && forall k :: k in s.rows ==> k != 0 && k < s.nextId
  }

  /** `@Insert(onConflict = IGNORE)`: id 0 takes the next id; an id already in
      the table leaves it as it is and yields -1; otherwise exactly one row is
      added and its id returned. */
  function InsertIgnore(s: ListStore, l: ListRec): (r: (ListStore, int))
    ensures l.id != 0 && l.id in s.rows ==> r == (s, -1)
    ensures r.0 == s || (r.1 !in s.rows && r.0.rows == s.rows[r.1 := l.(id := r.1)])
    ensures WellNumbered(s) ==> WellNumbered(r.0)
    ensures WellNumbered(s) && l.id == 0 ==>
      r.1 == s.nextId && r.0 == ListStore(s.rows[s.nextId := l.(id := s.nextId)], s.nextId + 1)
    ensures WellNumbered(s) && l.id != 0 && l.id < s.nextId && l.id !in s.rows ==>
      r == (ListStore(s.rows[l.id := l], s.nextId), l.id)
  {
    var id := if l.id == 0 then s.nextId else l.id;
    if id in s.rows then (s, -1)
    else (ListStore(s.rows[id := l.(id := id)], if id >= s.nextId then id + 1 else s.nextId), id)
  }

  /** A cloned list in the ARCHIVED state: the rows the main listing hides. */
  predicate IsArchivedClone(l: ListRec) {
    l.isCloned && l.state == ARCHIVED
  }

  /** Comes first under `ORDER BY isTemplate DESC, id DESC`. */
  predicate ListBefore(a: ListRec, b: ListRec) {
    (a.isTemplate && !b.isTemplate) || (a.isTemplate == b.isTemplate && a.id > b.id)
  }

  /** `l` is a row of the table: the row stored under its id. */
  predicate Stored(rows: ListTable, l: ListRec) {
    l.id in rows && rows[l.id] == l
  }

  /** The rows with keys in `keys`, newest (largest id) first. */
  function RowsByIdDesc(rows: ListTable, keys: set<int>): (r: seq<ListRec>)
    requires keys <= rows.Keys
    ensures |r| == |keys|
    ensures forall i :: 0 <= i < |r| ==> Stored(rows, r[i]) && r[i].id in keys
    ensures forall k :: k in keys ==> rows[k] in r
    ensures forall i, j :: 0 <= i < j < |r| ==> r[i].id > r[j].id
  {
    var order := KeysDescending(keys);
    var r := RowsAt(rows, order);
    forall k | k in keys ensures rows[k] in r {
      var i :| 0 <= i < |order| && order[i] == k;
      assert r[i] == rows[k];
    }
    r
  }

  /** The keys among `keys` of the templates (`t`) or of the other lists. */
  function KeysWithFlag(rows: ListTable, keys: set<int>, t: bool): set<int> {
    set k | k in keys && k in rows && rows[k].isTemplate == t
  }

  /** The rows with keys in `keys`, templates first, newest first within each group. */
  function Ordered(rows: ListTable, keys: set<int>): (r: seq<ListRec>)
    requires keys <= rows.Keys
    ensures |r| == |keys|
    ensures forall i :: 0 <= i < |r| ==> Stored(rows, r[i]) && r[i].id in keys
    ensures forall k :: k in keys ==> rows[k] in r
    ensures forall i, j :: 0 <= i < j < |r| ==> ListBefore(r[i], r[j])
  {
    var templates := RowsByIdDesc(rows, KeysWithFlag(rows, keys, true));
    var others := RowsByIdDesc(rows, KeysWithFlag(rows, keys, false));
    TemplatesThenOthers(rows, keys, templates, others);
    templates + others
  }

  /** The templates among `keys`, newest first, followed by the other lists,
      newest first, are the rows at `keys` in listing order. */
  lemma TemplatesThenOthers(rows: ListTable, keys: set<int>, templates: seq<ListRec>, others: seq<ListRec>)
    requires keys <= rows.Keys
    requires |templates| == |KeysWithFlag(rows, keys, true)|
    requires |others| == |KeysWithFlag(rows, keys, false)|
    requires forall i :: 0 <= i < |templates| ==> Stored(rows, templates[i]) && templates[i].id in KeysWithFlag(rows, keys, true)
    requires forall i :: 0 <= i < |others| ==> Stored(rows, others[i]) && others[i].id in KeysWithFlag(rows, keys, false)
    requires forall k :: k in KeysWithFlag(rows, keys, true) ==> rows[k] in templates
    requires forall k :: k in KeysWithFlag(rows, keys, false) ==> rows[k] in others
    requires forall i, j :: 0 <= i < j < |templates| ==> templates[i].id > templates[j].id
    requires forall i, j :: 0 <= i < j < |others| ==> others[i].id > others[j].id
    ensures |templates + others| == |keys|
    ensures forall i :: 0 <= i < |templates + others| ==> Stored(rows, (templates + others)[i]) && (templates + others)[i].id in keys
    ensures forall k :: k in keys ==> rows[k] in templates + others
    ensures forall i, j :: 0 <= i < j < |templates + others| ==>
      ListBefore((templates + others)[i], (templates + others)[j])
  {
    var r := templates + others;
    var ts := KeysWithFlag(rows, keys, true);
    var os := KeysWithFlag(rows, keys, false);
    assert keys == ts + os && ts * os == {};
    forall i | 0 <= i < |r| ensures Stored(rows, r[i]) && r[i].id in keys && (i < |templates| <==> r[i].isTemplate) {
      if i < |templates| {
        assert r[i] == templates[i];
      } else {
        assert r[i] == others[i - |templates|];
      }
    }
    forall k | k in keys ensures rows[k] in r {
      if rows[k].isTemplate {
        assert k in ts;
      } else {
        assert k in os;
      }
    }
    forall i, j | 0 <= i < j < |r| ensures ListBefore(r[i], r[j]) {
      if j < |templates| {
        assert r[i] == templates[i] && r[j] == templates[j];
      } else if i >= |templates| {
        assert r[i] == others[i - |templates|] && r[j] == others[j - |templates|];
      }
    }
  }

  /** The keys of the rows the main listing shows. */
  function VisibleKeys(rows: ListTable): set<int> {
    set k | k in rows && !IsArchivedClone(rows[k])
  }

  /** `getAll`: exactly the lists that are not archived clones, templates
      first and newest first within each group. */
  function GetAll(rows: ListTable): (r: seq<ListRec>)
    ensures forall i :: 0 <= i < |r| ==> Stored(rows, r[i]) && !IsArchivedClone(r[i])
    ensures forall k :: k in VisibleKeys(rows) ==> rows[k] in r
    ensures forall i, j :: 0 <= i < j < |r| ==> ListBefore(r[i], r[j])
    ensures |r| == |VisibleKeys(rows)|
  {
    Ordered(rows, VisibleKeys(rows))
  }

  /** A list is in `getAll` exactly when it is a row of the table and not an
      archived clone. */
  lemma InGetAll(rows: ListTable, l: ListRec)
    ensures l in GetAll(rows) <==> Stored(rows, l) && !IsArchivedClone(l)
  {
    if Stored(rows, l) && !IsArchivedClone(l) {
      assert l.id in VisibleKeys(rows);
    }
  }

  /** The keys of the rows `search(filter)` returns. */
  function SearchKeys(rows: ListTable, filter: string): set<int> {
    set k | k in rows && !IsArchivedClone(rows[k]) && Like(rows[k].name, filter)
  }

  /** `search(filter)`: the lists of `getAll` whose name is LIKE `filter`, in the same order. */
  function Search(rows: ListTable, filter: string): (r: seq<ListRec>)
    ensures forall i :: 0 <= i < |r| ==> Stored(rows, r[i]) && !IsArchivedClone(r[i]) && Like(r[i].name, filter)
    ensures forall k :: k in SearchKeys(rows, filter) ==> rows[k] in r
    ensures forall i, j :: 0 <= i < j < |r| ==> ListBefore(r[i], r[j])
  {
    Ordered(rows, SearchKeys(rows, filter))
  }

  /** A list is found by `search(filter)` exactly when `getAll` has it and its
      name is LIKE `filter`. */
  lemma InSearch(rows: ListTable, filter: string, l: ListRec)
    ensures l in Search(rows, filter) <==> l in GetAll(rows) && Like(l.name, filter)
  {
    InGetAll(rows, l);
    if l in GetAll(rows) && Like(l.name, filter) {
      assert l.id in SearchKeys(rows, filter);
    }
  }

  /** A row of the listing with counts: the list's columns, the number of its
      items and the number of those that are struck. */
  datatype ListWithCount = ListWithCount(list: ListRec, itemCount: int, markedCount: int)

  /** The list columns of each row of a listing with counts. */
  function ListsOf(r: seq<ListWithCount>): (ls: seq<ListRec>)
    ensures |ls| == |r|
    ensures forall i :: 0 <= i < |r| ==> ls[i] == r[i].list
  {
    seq(|r|, i requires 0 <= i < |r| => r[i].list)
  }

  /** The grouped row of list `l`: its items, 0 when it has none, and the
      struck ones among them. */
  function CountRow(l: ListRec, items: Items.ItemTable): (r: ListWithCount)
    ensures r.list == l
    ensures r.itemCount == |Items.GetForList(items, l.id)|
    ensures 0 <= r.markedCount <= r.itemCount
    ensures r.itemCount == Items.ItemCount(items, l.id) && r.markedCount == Items.MarkedCount(items, l.id)
  {
    ListWithCount(l, Items.ItemCount(items, l.id), Items.MarkedCount(items, l.id))
  }

  /** The LEFT JOIN … GROUP BY of the listings with counts, applied to `ls`. */
  function WithCounts(ls: seq<ListRec>, items: Items.ItemTable): (r: seq<ListWithCount>)
    ensures ListsOf(r) == ls
    ensures forall i :: 0 <= i < |r| ==> r[i] == CountRow(ls[i], items)
  {
    seq(|ls|, i requires 0 <= i < |ls| => CountRow(ls[i], items))
  }

  /** `getAllWithCount`: the rows of `getAll`, in its order, each with its counts. */
  function GetAllWithCount(rows: ListTable, items: Items.ItemTable): (r: seq<ListWithCount>)
    ensures ListsOf(r) == GetAll(rows)
    ensures forall i :: 0 <= i < |r| ==> r[i] == CountRow(r[i].list, items)
  {
    WithCounts(GetAll(rows), items)
  }

  /** `getAllWithCountIncludeArchived`: every list, archived clones too,
      templates first and newest first, each with its counts. */
  function GetAllWithCountIncludeArchived(rows: ListTable, items: Items.ItemTable): (r: seq<ListWithCount>)
    ensures |r| == |rows|
    ensures forall i :: 0 <= i < |r| ==> Stored(rows, r[i].list) && r[i] == CountRow(r[i].list, items)
    ensures forall k :: k in rows ==> rows[k] in ListsOf(r)
    ensures forall i, j :: 0 <= i < j < |r| ==> ListBefore(r[i].list, r[j].list)
  {
    WithCounts(Ordered(rows, rows.Keys), items)
  }

  /** The listing without archived clones is the full listing with those rows
      taken out. */
  lemma ListingsAgree(rows: ListTable, items: Items.ItemTable, l: ListRec)
    ensures l in ListsOf(GetAllWithCount(rows, items)) <==>
      l in ListsOf(GetAllWithCountIncludeArchived(rows, items)) && !IsArchivedClone(l)
  {
    InGetAll(rows, l);
    var all := ListsOf(GetAllWithCountIncludeArchived(rows, items));
    if l in all {
      var i :| 0 <= i < |all| && all[i] == l;
      assert Stored(rows, l);
    }
  }

  /** `countByName`: the rows whose name is exactly `name` (no trimming or case folding). */
  function CountByName(rows: ListTable, name: string): (n: nat)
    ensures n <= |rows|
    ensures n == 0 <==> forall k :: k in rows ==> rows[k].name != name
  {
    var matching := set k | k in rows && rows[k].name == name;
    Items.SubsetSize(matching, rows.Keys);
    assert forall k :: k in rows && rows[k].name == name ==> k in matching;
    |matching|
  }

  /** `countByNameExceptId`: the same count with the row `excludeId` left out. */
  function CountByNameExceptId(rows: ListTable, name: string, excludeId: int): (n: nat)
    ensures n == CountByName(rows, name)
      - (if excludeId in rows && rows[excludeId].name == name then 1 else 0)
    ensures n == 0 <==> forall k :: k in rows && k != excludeId ==> rows[k].name != name
  {
    var matching := set k | k in rows && rows[k].name == name;
    var others := set k | k in rows && rows[k].name == name && k != excludeId;
    assert others == matching - {excludeId};
    assert forall k :: k in rows && k != excludeId && rows[k].name == name ==> k in others;
    |others|
  }

  /** No two lists share a name. */
  predicate UniqueNames(rows: ListTable) {
    forall a, b :: a in rows && b in rows && rows[a].name == rows[b].name ==> a == b
  }

  /** `getById`: the row with that id, null when there is none. */
  function GetById(rows: ListTable, id: int): (r: Option<ListRec>)
    ensures r.Some? <==> id in rows
    ensures r.Some? ==> r.value.id == id && Stored(rows, r.value)
  {
    if id in rows then Some(rows[id]) else None
  }

  /** `getNameById`: the name of that row, null when there is none. */
  function GetNameById(rows: ListTable, id: int): (r: Option<string>)
    ensures r.Some? <==> GetById(rows, id).Some?
    ensures r.Some? ==> r.value == GetById(rows, id).value.name
  {
    if id in rows then Some(rows[id].name) else None
  }

  /** `updateName`: the name of row `id` and nothing else; no row, no change. */
  function Renamed(rows: ListTable, id: int, name: string): (r: ListTable)
    ensures r.Keys == rows.Keys
    ensures forall k :: k in rows && k != id ==> r[k] == rows[k]
    ensures id in rows ==> r[id] == rows[id].(name := name)
  {
    if id in rows then rows[id := rows[id].(name := name)] else rows
  }

  /** `updateState`: the state of row `id` and nothing else. */
  function WithState(rows: ListTable, id: int, state: string): (r: ListTable)
    ensures r.Keys == rows.Keys
    ensures forall k :: k in rows && k != id ==> r[k] == rows[k]
    ensures id in rows ==> r[id] == rows[id].(state := state)
  {
    if id in rows then rows[id := rows[id].(state := state)] else rows
  }

  /** `setTemplateFlag`: the template flag of row `id` and nothing else. */
  function WithTemplateFlag(rows: ListTable, id: int, isTemplate: bool): (r: ListTable)
    ensures r.Keys == rows.Keys
    ensures forall k :: k in rows && k != id ==> r[k] == rows[k]
    ensures id in rows ==> r[id] == rows[id].(isTemplate := isTemplate)
  {
    if id in rows then rows[id := rows[id].(isTemplate := isTemplate)] else rows
  }

  /** `setMasterId`: the master of row `id` and nothing else. */
  function WithMasterId(rows: ListTable, id: int, masterId: Option<int>): (r: ListTable)
    ensures r.Keys == rows.Keys
    ensures forall k :: k in rows && k != id ==> r[k] == rows[k]
    ensures id in rows ==> r[id] == rows[id].(masterId := masterId)
  {
    if id in rows then rows[id := rows[id].(masterId := masterId)] else rows
  }

  /** Writing a row's old name back after a rename restores the table. */
  lemma RenameRoundTrip(rows: ListTable, id: int, name: string)
    requires id in rows
    ensures Renamed(Renamed(rows, id, name), id, rows[id].name) == rows
  {
    var back := Renamed(Renamed(rows, id, name), id, rows[id].name);
    assert forall k :: k in rows ==> back[k] == rows[k];
  }

  /** Writing a row's old state back after a state change restores the table. */
  lemma StateRoundTrip(rows: ListTable, id: int, state: string)
    requires id in rows
    ensures WithState(WithState(rows, id, state), id, rows[id].state) == rows
  {
    var back := WithState(WithState(rows, id, state), id, rows[id].state);
    assert forall k :: k in rows ==> back[k] == rows[k];
  }

  /** For a cloned list and a permitted transition, a confirmation is asked
      exactly when the move takes the list out of the main listing. */
  lemma ConfirmationMeansHidden(rows: ListTable, id: int, target: string)
    requires id in rows && rows[id].isCloned
    requires IsTransitionAllowed(rows[id].state, target)
    ensures RequiresConfirmation(rows[id].state, target) <==>
      rows[id] in GetAll(rows) && WithState(rows, id, target)[id] !in GetAll(WithState(rows, id, target))
  {
    InGetAll(rows, rows[id]);
    InGetAll(WithState(rows, id, target), WithState(rows, id, target)[id]);
  }

  /** The `ListNameDao` of the smartlist database: the table and its id
      counter, changed one statement at a time. */
  class ListNameDao {
    var rows: ListTable
    var nextId: int

    function Store(): ListStore
      reads this
    {
      ListStore(rows, nextId)
    }

    ghost predicate Valid()
      reads this
    {
      WellNumbered(Store())
    }

    constructor ()
      ensures Valid() && rows == map[]
    {
      rows := map[];
      nextId := 1;
    }

    /** `insert(item)` with IGNORE on a clash of ids. */
    method Insert(l: ListRec) returns (rowId: int)
      requires Valid()
      modifies this
      ensures Valid()
      ensures (Store(), rowId) == InsertIgnore(old(Store()), l)
    {
      var r := InsertIgnore(Store(), l);
      rows, nextId, rowId := r.0.rows, r.0.nextId, r.1;
    }

    /** `deleteById`: only that row goes. */
    method DeleteById(id: int)
      requires Valid()
      modifies this
      ensures Valid()
      ensures nextId == old(nextId)
      ensures rows == old(rows) - {id}
    {
      rows := rows - {id};
    }

    method UpdateName(id: int, newName: string)
      requires Valid()
      modifies this
      ensures Valid()
      ensures nextId == old(nextId)
      ensures rows == Renamed(old(rows), id, newName)
    {
      rows := Renamed(rows, id, newName);
    }

    method UpdateState(id: int, newState: string)
      requires Valid()
      modifies this
      ensures Valid()
      ensures nextId == old(nextId)
      ensures rows == WithState(old(rows), id, newState)
    {
      rows := WithState(rows, id, newState);
    }

    method SetTemplateFlag(id: int, isTemplate: bool)
      requires Valid()
      modifies this
      ensures Valid()
      ensures nextId == old(nextId)
      ensures rows == WithTemplateFlag(old(rows), id, isTemplate)
    {
      rows := WithTemplateFlag(rows, id, isTemplate);
    }

    method SetMasterId(id: int, masterId: Option<int>)
      requires Valid()
      modifies this
      ensures Valid()
      ensures nextId == old(nextId)
      ensures rows == WithMasterId(old(rows), id, masterId)
    {
      rows := WithMasterId(rows, id, masterId);
    }
  }
}
