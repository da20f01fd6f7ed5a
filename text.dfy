/** The string operations the lists engine relies on: Kotlin's `trim`, `isBlank`
    and `contains(ignoreCase = true)`, and SQLite's `LIKE` and default (BINARY)
    ordering of text. Case folding covers ASCII letters only. */
module Text {

  /** Kotlin's `Char.isWhitespace`: Java whitespace or a Unicode space,
      line or paragraph separator. */
  predicate IsWhitespace(c: char) {
    || c == ' ' || '\t' <= c <= '\r' || '\U{1C}' <= c <= '\U{1F}'
    || c == '\U{A0}' || c == '\U{1680}' || '\U{2000}' <= c <= '\U{200A}'
    || c == '\U{2028}' || c == '\U{2029}' || c == '\U{202F}' || c == '\U{205F}' || c == '\U{3000}'
  }

  /** Kotlin's `String.isBlank`: empty or whitespace only. */
  predicate IsBlank(s: string) {
    forall i :: 0 <= i < |s| ==> IsWhitespace(s[i])
  }

  /** Drops the leading whitespace. */
  function TrimStart(s: string): (r: string)
    ensures |r| <= |s| && r == s[|s| - |r|..]
    ensures IsBlank(s[..|s| - |r|])
    ensures r == [] || !IsWhitespace(r[0])
  {
    if s != [] && IsWhitespace(s[0]) then
      var r := TrimStart(s[1..]);
      assert forall i :: 1 <= i < |s| - |r| ==> s[i] == s[1..][i - 1];
      r
    else s
  }

  /** Drops the trailing whitespace. */
  function TrimEnd(s: string): (r: string)
    ensures |r| <= |s| && r == s[..|r|]
    ensures IsBlank(s[|r|..])
    ensures r == [] || !IsWhitespace(r[|r| - 1])
  {
    if s != [] && IsWhitespace(s[|s| - 1]) then
      var r := TrimEnd(s[..|s| - 1]);
      assert forall i :: |r| <= i < |s| - 1 ==> s[i] == s[..|s| - 1][i];
      r
    else s
  }

  /** `r` occurs in `s` starting at index `i`. */
  predicate SliceAt(s: string, r: string, i: int) {
    0 <= i && i + |r| <= |s| && s[i..i + |r|] == r
  }

  /** Kotlin's `String.trim()`: the text between the first and the last
      non-whitespace character. */
  function Trim(s: string): (r: string)
    ensures |r| <= |s|
    ensures r == [] || (!IsWhitespace(r[0]) && !IsWhitespace(r[|r| - 1]))
    ensures r == [] <==> IsBlank(s)
    ensures IsBlank(r) <==> r == []
  {
    var t := TrimStart(s);
    var r := TrimEnd(t);
    BlankTrim(s, t, r);
    assert r != [] ==> r[0] == t[0];
    r
  }

  /** What `trim` keeps is a piece of the original text, only whitespace around it. */
  lemma TrimIsSlice(s: string)
    ensures exists i :: SliceAt(s, Trim(s), i) && IsBlank(s[..i]) && IsBlank(s[i + |Trim(s)|..])
  {
    var t := TrimStart(s);
    var r := TrimEnd(t);
    var i := |s| - |t|;
    assert SliceAt(s, r, i);
    assert s[i + |r|..] == t[|r|..];
  }

  lemma BlankTrim(s: string, t: string, r: string)
    requires t == TrimStart(s) && r == TrimEnd(t)
    ensures r == [] <==> IsBlank(s)
  {
    if r == [] {
      assert IsBlank(t) by {
        assert t[0..] == t;
      }
      assert s == s[..|s| - |t|] + t;
    } else {
      assert !IsWhitespace(r[0]);
      assert r[0] == s[|s| - |t|];
    }
  }

  /** Trimming twice is trimming once. */
  lemma TrimIdempotent(s: string)
    ensures Trim(Trim(s)) == Trim(s)
  {
    var r := Trim(s);
    if r != [] {
      assert TrimStart(r) == r;
      assert TrimEnd(r) == r;
    }
  }

  /** ASCII-only lower-casing, the folding both SQLite's LIKE and this model's
      case-insensitive `contains` use. */
  function Fold(c: char): (d: char)
    ensures 'A' <= c <= 'Z' ==> d as int == c as int + 32
    ensures !('A' <= c <= 'Z') ==> d == c
    ensures !('A' <= d <= 'Z')
    ensures 'a' <= d <= 'z' <==> 'a' <= c <= 'z' || 'A' <= c <= 'Z'
  {
    if 'A' <= c <= 'Z' then (c as int + 32) as char else c
  }

  /** Folding twice is folding once. */
  lemma FoldIdempotent(c: char)
    ensures Fold(Fold(c)) == Fold(c)
  {
  }

  /** Two ASCII letters fold alike exactly when they are the same letter, one
      possibly the capital of the other. */
  lemma FoldLetters(a: char, b: char)
    requires 'a' <= a <= 'z' || 'A' <= a <= 'Z'
    requires 'a' <= b <= 'z' || 'A' <= b <= 'Z'
    ensures Fold(a) == Fold(b) <==> a == b || a as int - b as int == 32 || b as int - a as int == 32
  {
  }

  /** Two strings of the same length that agree character by character up to case. */
  predicate EqualsIgnoreCase(a: string, b: string) {
    |a| == |b| && forall i :: 0 <= i < |a| ==> Fold(a[i]) == Fold(b[i])
  }

  /** Kotlin's `s.contains(q, ignoreCase = true)`: some window of `s` equals `q`
      up to case; the empty query is contained in every string. */
  predicate ContainsIgnoreCase(s: string, q: string) {
    exists i | 0 <= i <= |s| - |q| :: MatchesAt(s, q, i)
  }

  /** The window of `s` at index `i` equals `q` up to case. */
  predicate MatchesAt(s: string, q: string, i: int) {
    0 <= i <= |s| - |q| && EqualsIgnoreCase(s[i..i + |q|], q)
  }

  /** SQLite's BINARY collation on text: lexicographic order of code points
      (the order of the UTF-8 bytes). */
  predicate LexLe(a: string, b: string)
    decreases |a|
  {
    a == [] || (b != [] && (a[0] < b[0] || (a[0] == b[0] && LexLe(a[1..], b[1..]))))
  }

  lemma {:induction false} LexLeTotal(a: string, b: string)
    ensures LexLe(a, b) || LexLe(b, a)
    decreases |a|
  {
    if a != [] && b != [] && a[0] == b[0] {
      LexLeTotal(a[1..], b[1..]);
    }
  }

  lemma {:induction false} LexLeTransitive(a: string, b: string, c: string)
    requires LexLe(a, b) && LexLe(b, c)
    ensures LexLe(a, c)
    decreases |a|
  {
    if a != [] && a[0] == b[0] && b[0] == c[0] {
      LexLeTransitive(a[1..], b[1..], c[1..]);
    }
  }

  lemma {:induction false} LexLeAntisymmetric(a: string, b: string)
    requires LexLe(a, b) && LexLe(b, a)
    ensures a == b
    decreases |a|
  {
    if a != [] {
      LexLeAntisymmetric(a[1..], b[1..]);
      assert a == [a[0]] + a[1..] && b == [b[0]] + b[1..];
    }
  }

  /** SQLite's `s LIKE p` without an ESCAPE clause: `%` matches any run of
      characters, `_` any one character, every other character itself up to
      ASCII case. */
  predicate Like(s: string, p: string)
    decreases |p|, |s|
  {
    if p == [] then s == []
    else if p[0] == '%' then Like(s, p[1..]) || (s != [] && Like(s[1..], p))
    else s != [] && (p[0] == '_' || Fold(p[0]) == Fold(s[0])) && Like(s[1..], p[1..])
  }

  /** A pattern with no wildcard characters. */
  predicate Literal(q: string) {
    forall i :: 0 <= i < |q| ==> q[i] != '%' && q[i] != '_'
  }

  lemma {:induction false} LikePercentMatchesAll(s: string)
    ensures Like(s, "%")
    decreases |s|
  {
    assert "%"[1..] == [];
    if s != [] {
      LikePercentMatchesAll(s[1..]);
    }
  }

  /** `q%` with a literal `q` matches exactly the strings that start with `q` up to case. */
  lemma {:induction false} LikePrefix(s: string, q: string)
    requires Literal(q)
    ensures Like(s, q + "%") <==> |q| <= |s| && EqualsIgnoreCase(s[..|q|], q)
    decreases |q|
  {
    if q == [] {
      assert q + "%" == "%";
      LikePercentMatchesAll(s);
    } else {
      var p := q + "%";
      assert p[0] == q[0] && p[1..] == q[1..] + "%";
      if s != [] {
        LikePrefix(s[1..], q[1..]);
        if |q| <= |s| && EqualsIgnoreCase(s[..|q|], q) {
          assert EqualsIgnoreCase(s[1..][..|q[1..]|], q[1..]) by {
            forall i | 0 <= i < |q| - 1
              ensures Fold(s[1..][..|q[1..]|][i]) == Fold(q[1..][i])
            {
              assert s[1..][..|q[1..]|][i] == s[..|q|][i + 1];
            }
          }
        }
        if Like(s, p) {
          assert EqualsIgnoreCase(s[..|q|], q) by {
            forall i | 0 <= i < |q|
              ensures Fold(s[..|q|][i]) == Fold(q[i])
            {
              if i > 0 {
                assert s[..|q|][i] == s[1..][..|q[1..]|][i - 1];
              }
            }
          }
        }
      }
    }
  }

  /** `%p` matches exactly the strings that have a suffix matching `p`. */
  lemma {:induction false} LikeAnyPrefix(s: string, p: string)
    ensures Like(s, "%" + p) <==> exists i :: 0 <= i <= |s| && Like(s[i..], p)
    decreases |s|
  {
    var pp := "%" + p;
    assert pp[0] == '%' && pp[1..] == p;
    if s == [] {
      if Like(s, pp) {
        assert Like(s[0..], p);
      }
    } else {
      LikeAnyPrefix(s[1..], p);
      if Like(s, pp) {
        if !Like(s, p) {
          var i :| 0 <= i <= |s[1..]| && Like(s[1..][i..], p);
          assert s[1..][i..] == s[i + 1..];
        } else {
          assert s[0..] == s;
        }
      }
      if exists i :: 0 <= i <= |s| && Like(s[i..], p) {
        var i :| 0 <= i <= |s| && Like(s[i..], p);
        if i == 0 {
          assert s[0..] == s;
        } else {
          assert s[1..][i - 1..] == s[i..];
        }
      }
    }
  }

  /** The pattern `%q%` that callers build from a literal query `q` is a
      case-insensitive substring test. */
  lemma LikeIsContains(s: string, q: string)
    requires Literal(q)
    ensures Like(s, "%" + q + "%") <==> ContainsIgnoreCase(s, q)
  {
    assert "%" + q + "%" == "%" + (q + "%");
    LikeAnyPrefix(s, q + "%");
    if Like(s, "%" + q + "%") {
      var i :| 0 <= i <= |s| && Like(s[i..], q + "%");
      LikePrefix(s[i..], q);
      assert s[i..][..|q|] == s[i..i + |q|];
      assert MatchesAt(s, q, i);
    }
    if ContainsIgnoreCase(s, q) {
      var i :| 0 <= i <= |s| - |q| && MatchesAt(s, q, i);
      LikePrefix(s[i..], q);
      assert s[i..][..|q|] == s[i..i + |q|];
    }
  }
}
