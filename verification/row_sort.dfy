/**
 * `DataFrame.sort_values(by=col, ascending=...)` over the records of a
 * query result: NULLs go last in either direction, numbers compare by
 * value and strings by code point. A column that mixes numbers and
 * strings (or holds anything else) makes pandas raise; callers check
 * `Homogeneous` first. pandas' default sort is not stable, so only the
 * order of the keys and the multiset of rows are stated.
 */
module RowSort {

  import opened Json

  /** One record of `to_dict(orient='records')`. */
  type Row = map<string, Value>

  /** The sort key of a row; a missing column reads as NULL. */
  function Key(row: Row, col: string): Value {
    PyGet(row, col)
  }

  /** Python's `a <= b` on strings: lexicographic by code point. */
  predicate StrLe(a: string, b: string) {
    |a| == 0 || (|b| > 0 && (a[0] < b[0] || (a[0] == b[0] && StrLe(a[1..], b[1..]))))
  }

  lemma {:induction false} StrLeTotal(a: string, b: string)
    ensures StrLe(a, b) || StrLe(b, a)
  {
    if |a| > 0 && |b| > 0 && a[0] == b[0] {
      StrLeTotal(a[1..], b[1..]);
    }
  }

  lemma {:induction false} StrLeTrans(a: string, b: string, c: string)
    requires StrLe(a, b) && StrLe(b, c)
    ensures StrLe(a, c)
  {
    if |a| > 0 && |b| > 0 && |c| > 0 && a[0] == b[0] && b[0] == c[0] {
      StrLeTrans(a[1..], b[1..], c[1..]);
    }
  }

  /** The two families of keys a sortable column can hold, NULL belonging to both. */
  datatype KeyClass = NumKeys | StrKeys

  predicate InClass(v: Value, c: KeyClass) {
    v.Null? || (c == NumKeys && v.Num?) || (c == StrKeys && v.Str?)
  }

  predicate AllIn(rows: seq<Row>, col: string, c: KeyClass) {
    forall r :: r in rows ==> InClass(Key(r, col), c)
  }

  /** pandas can order the column: all non-NULL keys are numbers, or all are strings. */
  predicate Homogeneous(rows: seq<Row>, col: string) {
    AllIn(rows, col, NumKeys) || AllIn(rows, col, StrKeys)
  }

  /** `a <= b` for two non-NULL keys of the same family. */
  predicate KeyLe(a: Value, b: Value) {
    (a.Num? && b.Num? && a.n <= b.n) || (a.Str? && b.Str? && StrLe(a.s, b.s))
  }

  /** `x` may stand before `y` in the output: NULL last, the rest in the requested direction. */
  predicate Precedes(x: Value, y: Value, ascending: bool) {
    y.Null? || (!x.Null? && (if ascending then KeyLe(x, y) else KeyLe(y, x)))
  }

  lemma PrecedesTotal(x: Value, y: Value, ascending: bool, c: KeyClass)
    requires InClass(x, c) && InClass(y, c)
    ensures Precedes(x, y, ascending) || Precedes(y, x, ascending)
  {
    if x.Str? && y.Str? {
      StrLeTotal(x.s, y.s);
    }
  }

  lemma PrecedesTrans(x: Value, y: Value, z: Value, ascending: bool)
    requires Precedes(x, y, ascending) && Precedes(y, z, ascending)
    ensures Precedes(x, z, ascending)
  {
    if !z.Null? && x.Str? && y.Str? && z.Str? {
      if ascending {
        StrLeTrans(x.s, y.s, z.s);
      } else {
        StrLeTrans(z.s, y.s, x.s);
      }
    }
  }

  /** Every earlier row's key may precede every later row's key. */
  predicate SortedBy(rows: seq<Row>, col: string, ascending: bool) {
    forall i, j :: 0 <= i < j < |rows| ==> Precedes(Key(rows[i], col), Key(rows[j], col), ascending)
  }

  /** Insertion of one row before the first row its key may precede. */
  function Insert(x: Row, s: seq<Row>, col: string, ascending: bool): (r: seq<Row>)
    ensures multiset(r) == multiset(s) + multiset{x}
  {
    if |s| == 0 then [x]
    else if Precedes(Key(x, col), Key(s[0], col), ascending) then [x] + s
    else
      assert s == [s[0]] + s[1..];
      [s[0]] + Insert(x, s[1..], col, ascending)
  }

  function SortRows(rows: seq<Row>, col: string, ascending: bool): (r: seq<Row>)
    ensures multiset(r) == multiset(rows)
    ensures |r| == |rows|
  {
    if |rows| == 0 then []
    else
      assert rows == [rows[0]] + rows[1..];
      Insert(rows[0], SortRows(rows[1..], col, ascending), col, ascending)
  }

  /** A row whose key may precede every key of an ordered sequence can head it. */
  lemma ConsSorted(h: Row, t: seq<Row>, col: string, ascending: bool)
    requires SortedBy(t, col, ascending)
    requires forall j :: 0 <= j < |t| ==> Precedes(Key(h, col), Key(t[j], col), ascending)
    ensures SortedBy([h] + t, col, ascending)
  {
    var r := [h] + t;
    forall i, j | 0 <= i < j < |r| ensures Precedes(Key(r[i], col), Key(r[j], col), ascending) {
      assert r[j] == t[j - 1];
      if i > 0 {
        assert r[i] == t[i - 1];
      }
    }
  }

  lemma SortedTail(s: seq<Row>, col: string, ascending: bool)
    requires |s| > 0 && SortedBy(s, col, ascending)
    ensures SortedBy(s[1..], col, ascending)
  {
    var rest := s[1..];
    forall i, j | 0 <= i < j < |rest| ensures Precedes(Key(rest[i], col), Key(rest[j], col), ascending) {
      assert rest[i] == s[i + 1] && rest[j] == s[j + 1];
    }
  }

  lemma {:induction false} InsertSorted(x: Row, s: seq<Row>, col: string, ascending: bool, c: KeyClass)
    requires SortedBy(s, col, ascending)
    requires InClass(Key(x, col), c) && AllIn(s, col, c)
    ensures SortedBy(Insert(x, s, col, ascending), col, ascending)
    decreases |s|, 1
  {
    if |s| == 0 {
    } else if Precedes(Key(x, col), Key(s[0], col), ascending) {
      forall j | 0 <= j < |s| ensures Precedes(Key(x, col), Key(s[j], col), ascending) {
        if j > 0 {
          PrecedesTrans(Key(x, col), Key(s[0], col), Key(s[j], col), ascending);
        }
      }
      ConsSorted(x, s, col, ascending);
    } else {
      InsertAfterHead(x, s, col, ascending, c);
    }
  }

  lemma {:induction false} InsertAfterHead(x: Row, s: seq<Row>, col: string, ascending: bool, c: KeyClass)
    requires |s| > 0 && SortedBy(s, col, ascending)
    requires InClass(Key(x, col), c) && AllIn(s, col, c)
    requires !Precedes(Key(x, col), Key(s[0], col), ascending)
    ensures SortedBy([s[0]] + Insert(x, s[1..], col, ascending), col, ascending)
    decreases |s|, 0
  {
    var rest := s[1..];
    SortedTail(s, col, ascending);
    assert AllIn(rest, col, c) by {
      forall r | r in rest ensures InClass(Key(r, col), c) {
        assert r in s;
      }
    }
    InsertSorted(x, rest, col, ascending, c);
    var tail := Insert(x, rest, col, ascending);
    assert s[0] in s;
    PrecedesTotal(Key(x, col), Key(s[0], col), ascending, c);
    forall j | 0 <= j < |tail| ensures Precedes(Key(s[0], col), Key(tail[j], col), ascending) {
      assert tail[j] in multiset(tail);
      if tail[j] != x {
        assert tail[j] in multiset(rest);
        var k :| 0 <= k < |rest| && rest[k] == tail[j];
        assert s[k + 1] == tail[j];
      }
    }
    ConsSorted(s[0], tail, col, ascending);
  }

  /**
   * When every key belongs to one family, the output is ordered by key in
   * the requested direction with NULLs last; it always holds the same rows.
   */
  lemma {:induction false} SortRowsSorted(rows: seq<Row>, col: string, ascending: bool, c: KeyClass)
    requires AllIn(rows, col, c)
    ensures SortedBy(SortRows(rows, col, ascending), col, ascending)
    ensures multiset(SortRows(rows, col, ascending)) == multiset(rows)
  {
    if |rows| > 0 {
      var rest := rows[1..];
      assert AllIn(rest, col, c) by {
        forall r | r in rest ensures InClass(Key(r, col), c) {
          assert r in rows;
        }
      }
      SortRowsSorted(rest, col, ascending, c);
      var sortedRest := SortRows(rest, col, ascending);
      assert AllIn(sortedRest, col, c) by {
        forall r | r in sortedRest ensures InClass(Key(r, col), c) {
          assert r in multiset(sortedRest);
        }
      }
      assert rows[0] in rows;
      InsertSorted(rows[0], sortedRest, col, ascending, c);
    }
  }

  /** A prefix of an ordered sequence is ordered. */
  lemma SortedPrefix(rows: seq<Row>, n: nat, col: string, ascending: bool)
    requires n <= |rows| && SortedBy(rows, col, ascending)
    ensures SortedBy(rows[..n], col, ascending)
  {
    forall i, j | 0 <= i < j < n ensures Precedes(Key(rows[..n][i], col), Key(rows[..n][j], col), ascending) {
      assert rows[..n][i] == rows[i] && rows[..n][j] == rows[j];
    }
  }
}
