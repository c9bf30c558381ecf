/**
 * The month-to-season mapping and the per-weekday and per-season means of
 * total sleep, reported in a fixed label order (`groupby(...).mean()` followed
 * by `reindex(order)`).
 */
module Summaries {
  import opened Wrappers
  import opened SleepRecords
  import opened Stats

  datatype Season = Winter | Spring | Summer | Autumn

  /** `get_season`: defined for every integer; anything outside the first
      three groups, including a value that is not a month, is Autumn. */
  function GetSeason(month: int): (s: Season)
    ensures s == Winter <==> month == 12 || month == 1 || month == 2
    ensures s == Spring <==> 3 <= month <= 5
    ensures s == Summer <==> 6 <= month <= 8
    ensures s == Autumn <==> !(month == 12 || 1 <= month <= 8)
  {
    if month in [12, 1, 2] then Winter
    else if month in [3, 4, 5] then Spring
    else if month in [6, 7, 8] then Summer
    else Autumn
  }

  /** The calendar months that map to a season. */
  function MonthsOf(s: Season): set<int> {
    set m | 1 <= m <= 12 && GetSeason(m) == s
  }

  /** The twelve months split into four disjoint groups of three. */
  lemma SeasonsSplitYear()
    ensures MonthsOf(Winter) == {12, 1, 2}
    ensures MonthsOf(Spring) == {3, 4, 5}
    ensures MonthsOf(Summer) == {6, 7, 8}
    ensures MonthsOf(Autumn) == {9, 10, 11}
  {
  }

  const DayOrder: seq<Weekday> := [Monday, Tuesday, Wednesday, Thursday, Friday, Saturday, Sunday]
  const SeasonOrder: seq<Season> := [Winter, Spring, Summer, Autumn]

  predicate Distinct<L(==)>(labels: seq<L>) {
    forall i, j :: 0 <= i < j < |labels| ==> labels[i] != labels[j]
  }

  /** Each weekday has exactly one place in `day_order`. */
  lemma DayOrderListsEachWeekdayOnce()
    ensures Distinct(DayOrder) && forall d: Weekday :: d in DayOrder
  {
    forall d: Weekday ensures d in DayOrder {
      match d
      case Monday => assert DayOrder[0] == d;
      case Tuesday => assert DayOrder[1] == d;
      case Wednesday => assert DayOrder[2] == d;
      case Thursday => assert DayOrder[3] == d;
      case Friday => assert DayOrder[4] == d;
      case Saturday => assert DayOrder[5] == d;
      case Sunday => assert DayOrder[6] == d;
    }
  }

  /** Each season has exactly one place in `season_order`. */
  lemma SeasonOrderListsEachSeasonOnce()
    ensures Distinct(SeasonOrder) && forall s: Season :: s in SeasonOrder
  {
    forall s: Season ensures s in SeasonOrder {
      match s
      case Winter => assert SeasonOrder[0] == s;
      case Spring => assert SeasonOrder[1] == s;
      case Summer => assert SeasonOrder[2] == s;
      case Autumn => assert SeasonOrder[3] == s;
    }
  }

  /** Total sleep of the rows carrying label `l`, in row order. */
  function GroupTotals<L(==)>(rows: seq<Row>, labelOf: Row -> L, l: L): (g: seq<real>)
    ensures |g| <= |rows|
    ensures g == [] <==> forall k :: 0 <= k < |rows| ==> labelOf(rows[k]) != l
  {
    if |rows| == 0 then []
    else
      assert forall k :: 1 <= k < |rows| ==> rows[1..][k - 1] == rows[k];
      (if labelOf(rows[0]) == l then [rows[0].totalSleepHours] else []) + GroupTotals(rows[1..], labelOf, l)
  }

  /** One entry per label of `order`, in that order: the mean total sleep of
      the rows with that label, or None when no row has it. */
  function GroupMeans<L(==)>(rows: seq<Row>, labelOf: Row -> L, order: seq<L>): (r: seq<(L, Option<real>)>)
    ensures |r| == |order|
    ensures forall i :: 0 <= i < |order| ==> r[i].0 == order[i]
    ensures forall i :: 0 <= i < |order| ==>
      (r[i].1.None? <==> forall k :: 0 <= k < |rows| ==> labelOf(rows[k]) != order[i])
    ensures forall i :: 0 <= i < |order| && r[i].1.Some? ==>
      r[i].1.value == Mean(GroupTotals(rows, labelOf, order[i]))
  {
    seq(|order|, i requires 0 <= i < |order| =>
      var g := GroupTotals(rows, labelOf, order[i]);
      (order[i], if g == [] then None else Some(Mean(g))))
  }

  function WeekdayOf(row: Row): Weekday { row.record.weekday }
  function SeasonOf(row: Row): Season { GetSeason(row.record.month) }

  /** `daily_avg`: Monday to Sunday, the mean total sleep of each weekday present. */
  function WeekdayMeans(rows: seq<Row>): (r: seq<(Weekday, Option<real>)>)
    ensures |r| == 7
    ensures forall i :: 0 <= i < 7 ==> r[i].0 == DayOrder[i]
    ensures forall i :: 0 <= i < 7 ==>
      (r[i].1.Some? <==> exists k :: 0 <= k < |rows| && rows[k].record.weekday == DayOrder[i])
    ensures forall i :: 0 <= i < 7 && r[i].1.Some? ==>
      r[i].1.value == Mean(GroupTotals(rows, WeekdayOf, DayOrder[i]))
  {
    GroupMeans(rows, WeekdayOf, DayOrder)
  }

  /** The means of `seasonal_stats`: Winter, Spring, Summer, Autumn. */
  function SeasonMeans(rows: seq<Row>): (r: seq<(Season, Option<real>)>)
    ensures |r| == 4
    ensures forall i :: 0 <= i < 4 ==> r[i].0 == SeasonOrder[i]
    ensures forall i :: 0 <= i < 4 ==>
      (r[i].1.Some? <==> exists k :: 0 <= k < |rows| && GetSeason(rows[k].record.month) == SeasonOrder[i])
    ensures forall i :: 0 <= i < 4 && r[i].1.Some? ==>
      r[i].1.value == Mean(GroupTotals(rows, SeasonOf, SeasonOrder[i]))
  {
    GroupMeans(rows, SeasonOf, SeasonOrder)
  }

  /** The sum of the group sums over a list of labels. */
  function GroupSumOver<L(==)>(rows: seq<Row>, labelOf: Row -> L, labels: seq<L>): real {
    if |labels| == 0 then 0.0
    else Sum(GroupTotals(rows, labelOf, labels[0])) + GroupSumOver(rows, labelOf, labels[1..])
  }

  /** What one row adds to the group sums over `labels`. */
  function Share<L(==)>(x: Row, labelOf: Row -> L, labels: seq<L>): real {
    if |labels| == 0 then 0.0
    else (if labelOf(x) == labels[0] then x.totalSleepHours else 0.0) + Share(x, labelOf, labels[1..])
  }

  lemma {:induction false} GroupSumOverEmpty<L>(labelOf: Row -> L, labels: seq<L>)
    ensures GroupSumOver([], labelOf, labels) == 0.0
  {
    if |labels| > 0 {
      GroupSumOverEmpty(labelOf, labels[1..]);
    }
  }

  lemma {:induction false} GroupSumOverCons<L>(rows: seq<Row>, labelOf: Row -> L, labels: seq<L>)
    requires |rows| > 0
    ensures GroupSumOver(rows, labelOf, labels)
      == Share(rows[0], labelOf, labels) + GroupSumOver(rows[1..], labelOf, labels)
  {
    if |labels| > 0 {
      GroupSumOverCons(rows, labelOf, labels[1..]);
      var own := if labelOf(rows[0]) == labels[0] then [rows[0].totalSleepHours] else [];
      SumAppend(own, GroupTotals(rows[1..], labelOf, labels[0]));
      assert own == [] ==> Sum(own) == 0.0;
      assert own != [] ==> own[..0] == [];
    }
  }

  /** A row whose label occurs once in `labels` is counted exactly once. */
  lemma {:induction false} ShareOfListedLabel<L>(x: Row, labelOf: Row -> L, labels: seq<L>)
    requires Distinct(labels) && labelOf(x) in labels
    ensures Share(x, labelOf, labels) == x.totalSleepHours
  {
    if labels[0] == labelOf(x) {
      ShareOfUnlistedLabel(x, labelOf, labels[1..]);
    } else {
      ShareOfListedLabel(x, labelOf, labels[1..]);
    }
  }

  lemma {:induction false} ShareOfUnlistedLabel<L>(x: Row, labelOf: Row -> L, labels: seq<L>)
    requires labelOf(x) !in labels
    ensures Share(x, labelOf, labels) == 0.0
  {
    if |labels| > 0 {
      ShareOfUnlistedLabel(x, labelOf, labels[1..]);
    }
  }

  /** When every row's label is listed once, the groups split the rows: their
      sums add up to the total sleep of all rows. */
  lemma {:induction false} GroupsPartitionTotal<L>(rows: seq<Row>, labelOf: Row -> L, labels: seq<L>)
    requires Distinct(labels)
    requires forall k :: 0 <= k < |rows| ==> labelOf(rows[k]) in labels
    ensures GroupSumOver(rows, labelOf, labels) == Sum(TotalSleepColumn(rows))
  {
    if |rows| == 0 {
      GroupSumOverEmpty(labelOf, labels);
    } else {
      GroupSumOverCons(rows, labelOf, labels);
      ShareOfListedLabel(rows[0], labelOf, labels);
      GroupsPartitionTotal(rows[1..], labelOf, labels);
      SumFront(TotalSleepColumn(rows));
      assert TotalSleepColumn(rows)[1..] == TotalSleepColumn(rows[1..]);
    }
  }

  /** The seven weekday groups together hold all the sleep of the rows. */
  lemma WeekdayGroupsPartitionTotal(rows: seq<Row>)
    ensures GroupSumOver(rows, WeekdayOf, DayOrder) == Sum(TotalSleepColumn(rows))
  {
    DayOrderListsEachWeekdayOnce();
    GroupsPartitionTotal(rows, WeekdayOf, DayOrder);
  }

  /** The four season groups together hold all the sleep of the rows. */
  lemma SeasonGroupsPartitionTotal(rows: seq<Row>)
    ensures GroupSumOver(rows, SeasonOf, SeasonOrder) == Sum(TotalSleepColumn(rows))
  {
    SeasonOrderListsEachSeasonOnce();
    GroupsPartitionTotal(rows, SeasonOf, SeasonOrder);
  }
}
