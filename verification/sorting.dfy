/**
  Sorting the rows of a table by their first entry, the stand-in for pandas'
  `sort_values` on the elevation column. The sort is an insertion sort; rows
  with equal keys keep their relative order.
 */
module Sorting {

  /** Every row has a first entry to sort by. */
  predicate Keyed(rows: seq<seq<real>>) {
    forall i :: 0 <= i < |rows| ==> |rows[i]| >= 1
  }

  predicate SortedByKey(rows: seq<seq<real>>)
    requires Keyed(rows)
  {
    forall i, j :: 0 <= i < j < |rows| ==> rows[i][0] <= rows[j][0]
  }

  /** Places `p` before the first row whose key is not below its own. */
  function Insert(p: seq<real>, rows: seq<seq<real>>): (r: seq<seq<real>>)
    requires |p| >= 1 && Keyed(rows) && SortedByKey(rows)
    ensures Keyed(r) && SortedByKey(r)
    ensures forall x :: x in r <==> x in rows || x == p
  {
    if |rows| == 0 || p[0] <= rows[0][0] then
      [p] + rows
    else
      var tail := Insert(p, rows[1..]);
      assert rows == [rows[0]] + rows[1..];
      HeadBelowInsert(p, rows, tail);
      [rows[0]] + tail
  }

  /** Every row of `tail` (the rest of `rows` with `p` inserted) has a key no smaller than the head's. */
  lemma HeadBelowInsert(p: seq<real>, rows: seq<seq<real>>, tail: seq<seq<real>>)
    requires |p| >= 1 && |rows| >= 1 && Keyed(rows) && SortedByKey(rows) && rows[0][0] < p[0]
    requires forall x :: x in tail ==> x in rows[1..] || x == p
    ensures forall j :: 0 <= j < |tail| ==> |tail[j]| >= 1 && rows[0][0] <= tail[j][0]
  {
    forall j | 0 <= j < |tail|
      ensures |tail[j]| >= 1 && rows[0][0] <= tail[j][0]
    {
      assert tail[j] in tail;
      if tail[j] != p {
        var k :| 0 <= k < |rows[1..]| && rows[1..][k] == tail[j];
        assert rows[k + 1] == tail[j];
      }
    }
  }

  /** Inserting adds exactly one occurrence of the inserted row. */
  lemma {:induction false} InsertPermutes(p: seq<real>, rows: seq<seq<real>>)
    requires |p| >= 1 && Keyed(rows) && SortedByKey(rows)
    ensures multiset(Insert(p, rows)) == multiset(rows) + multiset{p}
    decreases |rows|
  {
    if |rows| > 0 && p[0] > rows[0][0] {
      InsertPermutes(p, rows[1..]);
      assert rows == [rows[0]] + rows[1..];
    }
  }

  function SortByKey(rows: seq<seq<real>>): (r: seq<seq<real>>)
    requires Keyed(rows)
    ensures Keyed(r) && SortedByKey(r)
    ensures multiset(r) == multiset(rows)
    ensures |r| == |rows|
    ensures forall x :: x in r <==> x in rows
  {
    if |rows| == 0 then []
    else
      assert rows == [rows[0]] + rows[1..];
      InsertPermutes(rows[0], SortByKey(rows[1..]));
      Insert(rows[0], SortByKey(rows[1..]))
  }
}
