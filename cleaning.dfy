/**
 * The row filter (sessions whose confirmation type is not OFF_WRIST, dated
 * from 2021-01-01 on) and the chronological sort of the surviving rows.
 */
module Cleaning {
  import opened SleepRecords

  /** The confirmation type whose sessions are dropped. */
  const OffWrist: string := "OFF_WRIST"

  /** 2021-01-01 as a day number (days since 1970-01-01). */
  const CutoffDay: int := 18628

  predicate Retained(row: Row) {
    row.record.sleepWindowConfirmationType != OffWrist && row.record.calendarDate >= CutoffDay
  }

  /** The rows that pass the filter. */
  function FilterRows(rows: seq<Row>): (kept: seq<Row>)
    ensures forall x :: multiset(kept)[x] == if Retained(x) then multiset(rows)[x] else 0
    ensures forall k :: 0 <= k < |kept| ==> Retained(kept[k])
  {
    if |rows| == 0 then []
    else
      var rest := FilterRows(rows[1..]);
      assert rows == [rows[0]] + rows[1..];
      if Retained(rows[0]) then [rows[0]] + rest else rest
  }

  /** Every row the filter drops fails one of its two conditions, and every row
      meeting both conditions survives. */
  lemma FilterKeepsExactly(rows: seq<Row>, x: Row)
    requires x in rows
    ensures x in FilterRows(rows)
      <==> x.record.sleepWindowConfirmationType != OffWrist && x.record.calendarDate >= CutoffDay
  {
  }

  predicate SortedByDate(rows: seq<Row>) {
    forall i, j :: 0 <= i < j < |rows| ==> rows[i].record.calendarDate <= rows[j].record.calendarDate
  }

  /** `x` placed before the first row whose date is not earlier than its own. */
  function Insert(x: Row, rows: seq<Row>): (r: seq<Row>)
    requires SortedByDate(rows)
    ensures SortedByDate(r)
    ensures multiset(r) == multiset(rows) + multiset{x}
    ensures |r| == |rows| + 1 && (r[0] == x || (|rows| > 0 && r[0] == rows[0]))
  {
    if |rows| == 0 then [x]
    else if x.record.calendarDate <= rows[0].record.calendarDate then [x] + rows
    else
      var rest := Insert(x, rows[1..]);
      assert rows == [rows[0]] + rows[1..];
      assert rows[0].record.calendarDate <= rest[0].record.calendarDate;
      [rows[0]] + rest
  }

  /** The rows in non-decreasing date order (`sort_values('calendarDate')`). */
  function SortByDate(rows: seq<Row>): (r: seq<Row>)
    ensures SortedByDate(r)
    ensures multiset(r) == multiset(rows)
  {
    if |rows| == 0 then []
    else
      assert rows == [rows[0]] + rows[1..];
      Insert(rows[0], SortByDate(rows[1..]))
  }
}
