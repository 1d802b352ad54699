/**
 * In-memory tables for the database layer (lib/database): a table is
 * a sequence of rows in insertion order, and the SQL clauses the queries
 * use become functions on it: `WHERE`, `COUNT(*)`, `ORDER BY … DESC` and
 * `LIMIT … OFFSET …` as SQLite reads them.
 */
module Tables {
  /** `WHERE p`: the rows satisfying `p`, in table order. */
  function Where<T(!new)>(rows: seq<T>, p: T -> bool): (r: seq<T>)
    ensures |r| <= |rows|
    ensures forall x :: x in r <==> x in rows && p(x)
  {
    if |rows| == 0 then []
    else if p(rows[0]) then [rows[0]] + Where(rows[1..], p)
    else Where(rows[1..], p)
  }

  /** Selection drops a row exactly when some row fails the condition. */
  lemma {:induction false} WhereShrinks<T(!new)>(rows: seq<T>, p: T -> bool)
    ensures |Where(rows, p)| < |rows| <==> exists x :: x in rows && !p(x)
  {
    if |rows| > 0 {
      WhereShrinks(rows[1..], p);
      assert rows == [rows[0]] + rows[1..];
      if exists x :: x in rows[1..] && !p(x) {
        var x :| x in rows[1..] && !p(x);
        assert x in rows;
      }
    }
  }

  /** Selecting with a condition every row meets gives the table back. */
  lemma {:induction false} WhereAll<T(!new)>(rows: seq<T>, p: T -> bool)
    requires forall x :: x in rows ==> p(x)
    ensures Where(rows, p) == rows
  {
    if |rows| > 0 {
      assert forall x :: x in rows[1..] ==> x in rows;
      WhereAll(rows[1..], p);
      assert rows == [rows[0]] + rows[1..];
    }
  }

  /** Appending a row adds it to a selection exactly when it meets the condition. */
  lemma {:induction false} WhereAppend<T(!new)>(rows: seq<T>, x: T, p: T -> bool)
    ensures Where(rows + [x], p) == Where(rows, p) + (if p(x) then [x] else [])
  {
    if |rows| > 0 {
      assert (rows + [x])[1..] == rows[1..] + [x];
      WhereAppend(rows[1..], x, p);
    }
  }

  /** `COUNT(*) … WHERE p`. */
  function CountWhere<T>(rows: seq<T>, p: T -> bool): (n: nat)
    ensures n <= |rows|
    ensures n > 0 <==> exists i :: 0 <= i < |rows| && p(rows[i])
  {
    if |rows| == 0 then 0
    else
      var rest := CountWhere(rows[1..], p);
      assert forall i :: 0 < i < |rows| ==> rows[i] == rows[1..][i - 1];
      (if p(rows[0]) then 1 else 0) + rest
  }

  /**
   * `ge(a, b)`: row `a` may come before row `b`. An `ORDER BY` compares
   * every two rows, consistently.
   */
  ghost predicate Total<T(!new)>(ge: (T, T) -> bool) {
    (forall a, b :: ge(a, b) || ge(b, a))
    && (forall a, b, c :: ge(a, b) && ge(b, c) ==> ge(a, c))
  }

  predicate Sorted<T>(rows: seq<T>, ge: (T, T) -> bool) {
    forall i, j :: 0 <= i < j < |rows| ==> ge(rows[i], rows[j])
  }

  /** Insertion of one row before the first row it may precede. */
  function InsertBy<T>(x: T, sorted: seq<T>, ge: (T, T) -> bool): (r: seq<T>)
    ensures |r| == |sorted| + 1
    ensures multiset(r) == multiset(sorted) + multiset{x}
    ensures r[0] == x || (|sorted| > 0 && r[0] == sorted[0])
  {
    if |sorted| == 0 || ge(x, sorted[0]) then [x] + sorted
    else
      assert sorted == [sorted[0]] + sorted[1..];
      [sorted[0]] + InsertBy(x, sorted[1..], ge)
  }

  /** `ORDER BY … DESC` by insertion; rows that tie keep table order. */
  function SortBy<T>(rows: seq<T>, ge: (T, T) -> bool): (r: seq<T>)
    ensures |r| == |rows|
    ensures multiset(r) == multiset(rows)
  {
    if |rows| == 0 then []
    else
      assert rows == [rows[0]] + rows[1..];
      InsertBy(rows[0], SortBy(rows[1..], ge), ge)
  }

  lemma {:induction false} InsertBySorted<T(!new)>(x: T, sorted: seq<T>, ge: (T, T) -> bool)
    requires Total(ge) && Sorted(sorted, ge)
    ensures Sorted(InsertBy(x, sorted, ge), ge)
  {
    if |sorted| == 0 || ge(x, sorted[0]) {
      var r := InsertBy(x, sorted, ge);
      forall j | 0 < j < |r|
        ensures ge(x, r[j])
      {
        assert r[j] == sorted[j - 1];
        if j > 1 {
          assert ge(sorted[0], sorted[j - 1]);
        }
      }
    } else {
      InsertBySorted(x, sorted[1..], ge);
      var tail := InsertBy(x, sorted[1..], ge);
      var r := InsertBy(x, sorted, ge);
      assert r == [sorted[0]] + tail;
      forall i, j | 0 < i < j < |r|
        ensures ge(r[i], r[j])
      {
        assert r[i] == tail[i - 1] && r[j] == tail[j - 1];
      }
      forall j | 0 < j < |r|
        ensures ge(r[0], r[j])
      {
        assert r[j] in multiset(sorted[1..]) + multiset{x} by {
          assert r[j] == tail[j - 1];
          assert r[j] in multiset(tail);
        }
        if r[j] != x {
          assert r[j] in sorted[1..];
          var k :| 0 <= k < |sorted[1..]| && sorted[1..][k] == r[j];
          assert sorted[k + 1] == r[j];
        }
      }
    }
  }

  /** For a total order, the result really is sorted. */
  lemma {:induction false} SortBySorted<T(!new)>(rows: seq<T>, ge: (T, T) -> bool)
    requires Total(ge)
    ensures Sorted(SortBy(rows, ge), ge)
  {
    if |rows| > 0 {
      SortBySorted(rows[1..], ge);
      InsertBySorted(rows[0], SortBy(rows[1..], ge), ge);
    }
  }

  /** Where a page starts: a negative offset counts as 0, one past the end as the end. */
  function Start(n: nat, offset: int): (s: nat)
    ensures s <= n
  {
    if offset < 0 then 0 else if offset > n then n else offset
  }

  /**
   * `LIMIT limit OFFSET offset` as SQLite reads them: a negative offset
   * counts as 0 and a negative limit means no limit.
   */
  function Page<T>(rows: seq<T>, limit: int, offset: int): (r: seq<T>)
    ensures limit >= 0 ==> |r| <= limit
    ensures Start(|rows|, offset) + |r| <= |rows|
    ensures forall i :: 0 <= i < |r| ==> r[i] == rows[Start(|rows|, offset) + i]
    ensures (limit < 0 || |r| < limit) ==> Start(|rows|, offset) + |r| == |rows|
  {
    var rest := rows[Start(|rows|, offset)..];
    if limit < 0 || limit >= |rest| then rest else rest[..limit]
  }

  /** A page of sorted rows is sorted. */
  lemma PageSorted<T>(rows: seq<T>, ge: (T, T) -> bool, limit: int, offset: int)
    requires Sorted(rows, ge)
    ensures Sorted(Page(rows, limit, offset), ge)
  {
    var page := Page(rows, limit, offset);
    var start := Start(|rows|, offset);
    forall i, j | 0 <= i < j < |page|
      ensures ge(page[i], page[j])
    {
      assert ge(rows[start + i], rows[start + j]);
    }
  }

  /**
   * Paging skips the first `offset` rows and shows up to `limit` of the
   * next ones in order; with no limit and no offset it shows every row.
   */
  lemma Paging<T>(rows: seq<T>, limit: int, offset: int)
    ensures Page(rows, -1, 0) == rows
    ensures 0 <= offset && 0 <= limit ==>
      |Page(rows, limit, offset)| == (if offset >= |rows| then 0 else if limit < |rows| - offset then limit else |rows| - offset)
      && forall i :: 0 <= i < |Page(rows, limit, offset)| ==> Page(rows, limit, offset)[i] == rows[offset + i]
  {
    assert rows[0..] == rows;
  }
}
