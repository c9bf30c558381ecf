/**
 * The preprocessing stage of the report end to end: derive the columns of
 * every loaded record, filter, sort by date and add the 30-row rolling mean.
 */
module Report {
  import opened Wrappers
  import opened SleepRecords
  import opened Stats
  import opened Loader
  import opened Cleaning

  /** Rows in the trailing window of `rolling_avg_30d`. */
  const RollingWindow: nat := 30

  /** `df_clean` with its `rolling_avg_30d` column. */
  datatype CleanTable = CleanTable(rows: seq<Row>, rollingAvg30d: seq<real>)

  /** The table built from all loaded records, or None when there are none: a
      frame built from an empty list has no columns, so the first column lookup
      fails and the run stops. */
  function Preprocess(allData: seq<SleepRecord>): (r: Option<CleanTable>)
    ensures r.None? <==> allData == []
    ensures r.Some? ==>
      var t := r.value;
      var df := DeriveAll(allData);
      && t.rows == SortByDate(FilterRows(df))
      && SortedByDate(t.rows)
      && (forall x :: multiset(t.rows)[x] == if Retained(x) then multiset(df)[x] else 0)
      && |t.rollingAvg30d| == |t.rows|
      && forall i :: 0 <= i < |t.rows| ==>
           t.rollingAvg30d[i] == Mean(TotalSleepColumn(t.rows)[WindowStart(i, RollingWindow)..i + 1])
  {
    if allData == [] then None
    else
      var clean := SortByDate(FilterRows(DeriveAll(allData)));
      Some(CleanTable(clean, RollingMean(TotalSleepColumn(clean), RollingWindow)))
  }

  /** A cleaned row is a derived row of one of the loaded records that passed
      the filter, and its total sleep is the deep plus light seconds in hours. */
  lemma CleanRowsComeFromRecords(allData: seq<SleepRecord>)
    ensures forall row :: row in SortByDate(FilterRows(DeriveAll(allData))) ==>
      && row.record in allData
      && row == Derive(row.record)
      && Retained(row)
      && row.totalSleepHours == (row.record.deepSleepSeconds + row.record.lightSleepSeconds) as real / 3600.0
  {
    var df := DeriveAll(allData);
    var rows := SortByDate(FilterRows(df));
    forall row | row in rows
      ensures row.record in allData && row == Derive(row.record) && Retained(row)
      ensures row.totalSleepHours == (row.record.deepSleepSeconds + row.record.lightSleepSeconds) as real / 3600.0
    {
      assert multiset(rows)[row] > 0;
      assert row in df;
      var i :| 0 <= i < |df| && df[i] == row;
    }
  }

  /** The run stops before any chart exactly when no file contributed a record. */
  lemma NoRecordsIsFatal(files: seq<SourceFile>)
    ensures Preprocess(LoadedRecords(files)).None?
      <==> forall i :: 0 <= i < |files| && files[i].contents.Some? ==> files[i].contents.value == []
  {
    NothingLoaded(files);
  }
}
