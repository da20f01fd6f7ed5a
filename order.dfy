/** The orders the queries return rows in: primary keys newest (largest) first,
    text ascending under SQLite's BINARY collation, and time stamps newest first. */
module Order {
  import opened Text

  /** `k` is the largest key of `s`. */
  predicate IsMax(k: int, s: set<int>) {
    k in s && forall j :: j in s ==> j <= k
  }

  lemma {:induction false} MaxExists(s: set<int>)
    requires s != {}
    ensures exists k :: IsMax(k, s)
    decreases |s|
  {
    if forall j :: j !in s { assert false; }
    var x :| x in s;
    if s != {x} {
      MaxExists(s - {x});
      var m :| IsMax(m, s - {x});
      var top := if m < x then x else m;
      forall j | j in s ensures j <= top {
        if j != x { assert j in s - {x}; }
      }
      assert IsMax(top, s);
    } else {
      assert IsMax(x, s);
    }
  }

  function MaxKey(s: set<int>): (k: int)
    requires s != {}
    ensures IsMax(k, s)
  {
    MaxExists(s);
    var k :| IsMax(k, s);
    k
  }

  /** The keys of `s`, largest first: the `ORDER BY id DESC` enumeration of a table. */
  function KeysDescending(s: set<int>): (r: seq<int>)
    ensures |r| == |s|
    ensures forall k :: k in r <==> k in s
    ensures forall i, j :: 0 <= i < j < |r| ==> r[i] > r[j]
    decreases |s|
  {
    if s == {} then [] else
    var m := MaxKey(s);
    [m] + KeysDescending(s - {m})
  }

  /** The entries of `rows` at `keys`, in the order of `keys`. */
  function RowsAt<K, T>(rows: map<K, T>, keys: seq<K>): (r: seq<T>)
    requires forall i :: 0 <= i < |keys| ==> keys[i] in rows
    ensures |r| == |keys|
    ensures forall i :: 0 <= i < |r| ==> r[i] == rows[keys[i]]
  {
    if keys == [] then [] else [rows[keys[0]]] + RowsAt(rows, keys[1..])
  }

  /** Every pair of positions is in ascending text order. */
  predicate StringsSorted(s: seq<string>) {
    forall i, j :: 0 <= i < j < |s| ==> LexLe(s[i], s[j])
  }

  /** Putting in front a text that sorts before every entry keeps the order. */
  lemma ConsStringsSorted(x: string, s: seq<string>)
    requires StringsSorted(s)
    requires forall j :: 0 <= j < |s| ==> LexLe(x, s[j])
    ensures StringsSorted([x] + s)
  {
    forall i, j | 0 <= i < j < |[x] + s| ensures LexLe(([x] + s)[i], ([x] + s)[j]) {
      assert ([x] + s)[j] == s[j - 1];
      if i > 0 { assert ([x] + s)[i] == s[i - 1]; }
    }
  }

  /** A bound on `x` and on every entry of `s` bounds every entry of any
      rearrangement of `s` with `x` added. */
  lemma LexBoundOfRearranged(lo: string, x: string, s: seq<string>, t: seq<string>)
    requires multiset(t) == multiset(s) + multiset{x}
    requires LexLe(lo, x)
    requires forall j :: 0 <= j < |s| ==> LexLe(lo, s[j])
    ensures forall i :: 0 <= i < |t| ==> LexLe(lo, t[i])
  {
    forall i | 0 <= i < |t| ensures LexLe(lo, t[i]) {
      assert t[i] in multiset(t);
      if t[i] != x {
        assert t[i] in multiset(s);
        var j :| 0 <= j < |s| && s[j] == t[i];
      }
    }
  }

  function InsertString(x: string, s: seq<string>): (r: seq<string>)
    requires StringsSorted(s)
    ensures StringsSorted(r)
    ensures multiset(r) == multiset(s) + multiset{x}
  {
    if s == [] then [x]
    else if LexLe(x, s[0]) then
      assert forall j :: 0 <= j < |s| ==> LexLe(x, s[j]) by {
        forall j | 0 <= j < |s| ensures LexLe(x, s[j]) {
          if j > 0 { LexLeTransitive(x, s[0], s[j]); }
        }
      }
      ConsStringsSorted(x, s);
      [x] + s
    else
      var rest := InsertString(x, s[1..]);
      LexLeTotal(x, s[0]);
      assert s == [s[0]] + s[1..];
      assert forall j :: 0 <= j < |s[1..]| ==> LexLe(s[0], s[1..][j]);
      LexBoundOfRearranged(s[0], x, s[1..], rest);
      ConsStringsSorted(s[0], rest);
      [s[0]] + rest
  }

  /** `ORDER BY content`: insertion sort under the BINARY collation. */
  function SortStrings(s: seq<string>): (r: seq<string>)
    ensures StringsSorted(r)
    ensures multiset(r) == multiset(s)
    ensures |r| == |s|
  {
    if s == [] then []
    else
      assert s == [s[0]] + s[1..];
      InsertString(s[0], SortStrings(s[1..]))
  }

  /** Every pair of positions is in descending stamp order. */
  predicate NewestFirst<T>(s: seq<T>, stamp: T -> int) {
    forall i, j :: 0 <= i < j < |s| ==> stamp(s[i]) >= stamp(s[j])
  }

  /** Putting in front an entry at least as new as every entry keeps the order. */
  lemma ConsNewestFirst<T>(x: T, s: seq<T>, stamp: T -> int)
    requires NewestFirst(s, stamp)
    requires forall j :: 0 <= j < |s| ==> stamp(x) >= stamp(s[j])
    ensures NewestFirst([x] + s, stamp)
  {
    forall i, j | 0 <= i < j < |[x] + s| ensures stamp(([x] + s)[i]) >= stamp(([x] + s)[j]) {
      assert ([x] + s)[j] == s[j - 1];
      if i > 0 { assert ([x] + s)[i] == s[i - 1]; }
    }
  }

  /** An entry at least as new as `x` and as every entry of `s` is at least as
      new as every entry of any rearrangement of `s` with `x` added. */
  lemma StampBoundOfRearranged<T>(top: T, x: T, s: seq<T>, t: seq<T>, stamp: T -> int)
    requires multiset(t) == multiset(s) + multiset{x}
    requires stamp(top) >= stamp(x)
    requires forall j :: 0 <= j < |s| ==> stamp(top) >= stamp(s[j])
    ensures forall i :: 0 <= i < |t| ==> stamp(top) >= stamp(t[i])
  {
    forall i | 0 <= i < |t| ensures stamp(top) >= stamp(t[i]) {
      assert t[i] in multiset(t);
      if t[i] != x {
        assert t[i] in multiset(s);
        var j :| 0 <= j < |s| && s[j] == t[i];
      }
    }
  }

  function InsertByStamp<T>(x: T, s: seq<T>, stamp: T -> int): (r: seq<T>)
    requires NewestFirst(s, stamp)
    ensures NewestFirst(r, stamp)
    ensures multiset(r) == multiset(s) + multiset{x}
  {
    if s == [] || stamp(x) >= stamp(s[0]) then
      assert forall j :: 0 <= j < |s| ==> stamp(x) >= stamp(s[j]);
      ConsNewestFirst(x, s, stamp);
      [x] + s
    else
      var rest := InsertByStamp(x, s[1..], stamp);
      assert s == [s[0]] + s[1..];
      assert forall j :: 0 <= j < |s[1..]| ==> stamp(s[0]) >= stamp(s[1..][j]);
      StampBoundOfRearranged(s[0], x, s[1..], rest, stamp);
      ConsNewestFirst(s[0], rest, stamp);
      [s[0]] + rest
  }

  /** `ORDER BY <stamp> DESC`: insertion sort, newest first. */
  function SortNewestFirst<T>(s: seq<T>, stamp: T -> int): (r: seq<T>)
    ensures NewestFirst(r, stamp)
    ensures multiset(r) == multiset(s)
    ensures |r| == |s|
  {
    if s == [] then []
    else
      assert s == [s[0]] + s[1..];
      InsertByStamp(s[0], SortNewestFirst(s[1..], stamp), stamp)
  }

  /** Two sequences with the same elements counted with multiplicity have the same members. */
  lemma SameMembers<T>(a: seq<T>, b: seq<T>)
    requires multiset(a) == multiset(b)
    ensures forall x :: x in a <==> x in b
  {
    forall x ensures x in a <==> x in b {
      assert x in a <==> x in multiset(a);
    }
  }

  /** What holds of every entry of `a` holds of every entry of a rearrangement of it. */
  lemma AllOfRearranged<T>(a: seq<T>, b: seq<T>, p: T -> bool)
    requires multiset(a) == multiset(b)
    requires forall i :: 0 <= i < |a| ==> p(a[i])
    ensures forall i :: 0 <= i < |b| ==> p(b[i])
  {
    forall i | 0 <= i < |b| ensures p(b[i]) {
      assert b[i] in multiset(a);
      var j :| 0 <= j < |a| && a[j] == b[i];
    }
  }
}
