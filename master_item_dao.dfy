/** The smartlist `master_items` table, the catalogue of item texts offered
    as suggestions: insert with IGNORE, the ordered and capped search, and
    the row count. */
module MasterItems {
  import opened Order
  import opened Text

  /** A row of `master_items`. */
  datatype MasterRec = MasterRec(id: int, content: string)

  /** The rows by primary key. */
  type MasterTable = m: map<int, MasterRec> | forall k :: k in m ==> m[k].id == k witness map[]

  /** The table together with its AUTOINCREMENT counter. */
  datatype MasterStore = MasterStore(rows: MasterTable, nextId: int)

  /** Every key is a non-zero id below the counter. */
  predicate WellNumbered(s: MasterStore) {
    s.nextId > 0 && forall k :: k in s.rows ==> k != 0 && k < s.nextId
  }

  /** `@Insert(onConflict = IGNORE)`: id 0 takes the next id; an id already in
      the table leaves it as it is and yields -1; otherwise exactly one row is
      added and its id returned. */
  function InsertIgnore(s: MasterStore, m: MasterRec): (r: (MasterStore, int))
    ensures m.id != 0 && m.id in s.rows ==> r == (s, -1)
    ensures r.0 == s || (r.1 !in s.rows && r.0.rows == s.rows[r.1 := m.(id := r.1)])
    ensures WellNumbered(s) ==> WellNumbered(r.0)
    ensures WellNumbered(s) && m.id == 0 ==>
      r.1 == s.nextId && r.0 == MasterStore(s.rows[s.nextId := m.(id := s.nextId)], s.nextId + 1)
  {
    var id := if m.id == 0 then s.nextId else m.id;
    if id in s.rows then (s, -1)
    else (MasterStore(s.rows[id := m.(id := id)], if id >= s.nextId then id + 1 else s.nextId), id)
  }

  /** The keys of the rows whose content is LIKE `filter`. */
  function MatchingKeys(rows: MasterTable, filter: string): set<int> {
    set k | k in rows && Like(rows[k].content, filter)
  }

  /** The contents of the rows at `keys`, in that order. */
  function ContentsAt(rows: MasterTable, keys: seq<int>): (r: seq<string>)
    requires forall i :: 0 <= i < |keys| ==> keys[i] in rows
    ensures |r| == |keys|
    ensures forall i :: 0 <= i < |r| ==> r[i] == rows[keys[i]].content
  {
    if keys == [] then [] else [rows[keys[0]].content] + ContentsAt(rows, keys[1..])
  }

  /** Every content in the table. */
  function Contents(rows: MasterTable): set<string> {
    set k | k in rows :: rows[k].content
  }

  /** The contents at an enumeration of the matching keys are matching
      contents, and every matching row's content is among them. */
  lemma MatchingContents(rows: MasterTable, filter: string, matching: set<int>, keys: seq<int>)
    requires matching == MatchingKeys(rows, filter)
    requires forall k :: k in keys <==> k in matching
    ensures forall i :: 0 <= i < |keys| ==> keys[i] in rows
    ensures forall c :: c in ContentsAt(rows, keys) ==> c in Contents(rows) && Like(c, filter)
    ensures forall k :: k in matching ==> rows[k].content in ContentsAt(rows, keys)
  {
    forall i | 0 <= i < |keys| ensures keys[i] in matching {
      var k := keys[i];
      assert k in keys;
      assert k in keys ==> k in matching;
    }
    var contents := ContentsAt(rows, keys);
    forall c | c in contents ensures c in Contents(rows) && Like(c, filter) {
      var i :| 0 <= i < |contents| && contents[i] == c;
      assert keys[i] in matching;
    }
    forall k | k in matching ensures rows[k].content in contents {
      var i :| 0 <= i < |keys| && keys[i] == k;
      assert contents[i] == rows[k].content;
    }
  }

  /** The keys among `keys` of the rows whose content is `c`. */
  function KeysWithContent(rows: MasterTable, keys: set<int>, c: string): set<int> {
    set k | k in keys && k in rows && rows[k].content == c
  }

  /** Taking key `k` out of `ks` takes it out of the keys holding `c`, if it was there. */
  lemma CountWithout(rows: MasterTable, ks: set<int>, k: int, c: string)
    requires k in ks && k in rows
    ensures |KeysWithContent(rows, ks, c)| ==
      |KeysWithContent(rows, ks - {k}, c)| + (if rows[k].content == c then 1 else 0)
  {
    var rest := KeysWithContent(rows, ks - {k}, c);
    if rows[k].content == c {
      assert KeysWithContent(rows, ks, c) == rest + {k};
    } else {
      assert KeysWithContent(rows, ks, c) == rest;
    }
  }

  /** The tail of an enumeration of distinct keys enumerates the others. */
  lemma TailEnumerates(keys: seq<int>, ks: set<int>)
    requires keys != []
    requires forall i, j :: 0 <= i < j < |keys| ==> keys[i] != keys[j]
    requires forall k :: k in ks <==> k in keys
    ensures forall k :: k in ks - {keys[0]} <==> k in keys[1..]
  {
    var tail := keys[1..];
    assert keys == [keys[0]] + tail;
    forall j | 0 <= j < |tail| ensures tail[j] != keys[0] {
      assert tail[j] == keys[j + 1];
    }
  }

  /** Enumerating the distinct keys `ks` lists each content once per row holding it. */
  lemma {:induction false} CountInContents(rows: MasterTable, keys: seq<int>, ks: set<int>, c: string)
    requires forall i :: 0 <= i < |keys| ==> keys[i] in rows
    requires forall i, j :: 0 <= i < j < |keys| ==> keys[i] != keys[j]
    requires forall k :: k in ks <==> k in keys
    ensures multiset(ContentsAt(rows, keys))[c] == |KeysWithContent(rows, ks, c)|
  {
    if keys == [] {
      assert KeysWithContent(rows, ks, c) == {};
    } else {
      TailEnumerates(keys, ks);
      CountInContents(rows, keys[1..], ks - {keys[0]}, c);
      assert ContentsAt(rows, keys) == [rows[keys[0]].content] + ContentsAt(rows, keys[1..]);
      CountWithout(rows, ks, keys[0], c);
    }
  }

  /** The contents of every matching row (duplicates kept), ascending: each
      content as many times as there are matching rows holding it. */
  function SortedMatches(rows: MasterTable, filter: string): (r: seq<string>)
    ensures |r| == |MatchingKeys(rows, filter)|
    ensures StringsSorted(r)
    ensures forall c :: c in r ==> c in Contents(rows) && Like(c, filter)
    ensures forall k :: k in MatchingKeys(rows, filter) ==> rows[k].content in r
    ensures forall c :: multiset(r)[c] == |KeysWithContent(rows, MatchingKeys(rows, filter), c)|
  {
    var matching := MatchingKeys(rows, filter);
    var keys := KeysDescending(matching);
    MatchingContents(rows, filter, matching, keys);
    var r := SortStrings(ContentsAt(rows, keys));
    SameMembers(r, ContentsAt(rows, keys));
    assert forall c :: multiset(r)[c] == |KeysWithContent(rows, matching, c)| by {
      forall c {
        CountInContents(rows, keys, matching, c);
      }
    }
    r
  }

  /** The cap of `LIMIT 10`. */
  const SearchLimit: nat := 10

  /** `search(filter)`: the contents LIKE `filter`, ascending, at most ten of
      them, and never one that sorts after a matching content left out. */
  function Search(rows: MasterTable, filter: string): (r: seq<string>)
    ensures |r| <= SearchLimit
    ensures |r| == if |MatchingKeys(rows, filter)| < SearchLimit then |MatchingKeys(rows, filter)| else SearchLimit
    ensures r == SortedMatches(rows, filter)[..|r|]
    ensures StringsSorted(r)
    ensures forall c :: c in r ==> c in Contents(rows) && Like(c, filter)
    ensures forall i, k :: 0 <= i < |r| && k in MatchingKeys(rows, filter) && rows[k].content !in r ==>
      LexLe(r[i], rows[k].content)
  {
    var all := SortedMatches(rows, filter);
    var n := if |all| < SearchLimit then |all| else SearchLimit;
    SortedPrefix(all, n);
    forall k | k in MatchingKeys(rows, filter) && rows[k].content !in all[..n]
      ensures forall i :: 0 <= i < n ==> LexLe(all[..n][i], rows[k].content)
    {
      SortedPrefix(all, n);
    }
    all[..n]
  }

  /** A prefix of a sorted sequence is sorted, holds elements of the whole,
      and comes before every element it leaves out. */
  lemma SortedPrefix(all: seq<string>, n: nat)
    requires StringsSorted(all) && n <= |all|
    ensures StringsSorted(all[..n])
    ensures forall c :: c in all[..n] ==> c in all
    ensures forall c, i :: c in all && c !in all[..n] && 0 <= i < n ==> LexLe(all[..n][i], c)
  {
    var r := all[..n];
    forall i, j | 0 <= i < j < n ensures LexLe(r[i], r[j]) {
      assert r[i] == all[i] && r[j] == all[j];
    }
    forall c, i | c in all && c !in r && 0 <= i < n ensures LexLe(r[i], c) {
      var j :| 0 <= j < |all| && all[j] == c;
      assert forall m :: 0 <= m < n ==> r[m] == all[m] && r[m] in r;
      assert n <= j;
    }
  }

  /** `countAll`: the number of rows. */
  function CountAll(rows: MasterTable): (n: nat)
    ensures n == 0 <==> rows == map[]
  {
    |rows|
  }

  /** The match-everything filter `%` returns the first ten contents of the
      whole table: exactly as many as the table holds, up to ten. */
  lemma SearchAllIsCapped(rows: MasterTable)
    ensures |Search(rows, "%")| == if CountAll(rows) < SearchLimit then CountAll(rows) else SearchLimit
  {
    forall k | k in rows ensures k in MatchingKeys(rows, "%") {
      LikePercentMatchesAll(rows[k].content);
    }
    assert MatchingKeys(rows, "%") == rows.Keys;
  }

  /** The `MasterItemDao`: the table and its id counter. */
  class MasterItemDao {
    var rows: MasterTable
    var nextId: int

    function Store(): MasterStore
      reads this
    {
      MasterStore(rows, nextId)
    }

    ghost predicate Valid()
      reads this
    {
      WellNumbered(Store())
    }

    constructor ()
      ensures Valid() && rows == map[]
    {
      rows := map[];
      nextId := 1;
    }

    /** `insert(item)` with IGNORE on a clash of ids. */
    method Insert(m: MasterRec) returns (rowId: int)
      requires Valid()
      modifies this
      ensures Valid()
      ensures (Store(), rowId) == InsertIgnore(old(Store()), m)
    {
      var r := InsertIgnore(Store(), m);
      rows, nextId, rowId := r.0.rows, r.0.nextId, r.1;
    }
  }
}
