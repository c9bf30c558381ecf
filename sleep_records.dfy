/**
 * One sleep session as the tracker exports it, and the columns the report
 * derives from it before filtering.
 *
 * Timestamps are whole seconds, `calendarDate` is a day number (days since
 * 1970-01-01), and the weekday and month of that date are given on the record
 * instead of being computed by a calendar library.
 */
module SleepRecords {
  import opened Wrappers

  datatype Weekday = Monday | Tuesday | Wednesday | Thursday | Friday | Saturday | Sunday

  datatype SleepRecord = SleepRecord(
    calendarDate: int,
    sleepStartTimestampGMT: int,
    sleepEndTimestampGMT: int,
    deepSleepSeconds: int,
    lightSleepSeconds: int,
    awakeSleepSeconds: int,
    sleepWindowConfirmationType: string,
    weekday: Weekday,
    month: int)

  /** A record together with the columns derived from it. */
  datatype Row = Row(
    record: SleepRecord,
    deepSleepHours: real,
    lightSleepHours: real,
    awakeHours: real,
    totalSleepHours: real,
    totalTimeInBedHours: real,
    // None where the division has no finite value (pandas gives inf or NaN)
    sleepEfficiency: Option<real>,
    deepSleepPercentage: Option<real>)

  const SecondsPerHour: real := 3600.0

  function Hours(seconds: int): real {
    seconds as real / SecondsPerHour
  }

  /** `num / den * 100`, undefined when the denominator is zero. */
  function Percentage(num: real, den: real): Option<real> {
    if den == 0.0 then None else Some(num / den * 100.0)
  }

  /** The derived columns of one record, computed in the order the script
      does. Restated on the raw seconds: total sleep is deep plus light,
      efficiency is that sleep over the time between the two timestamps, and
      each percentage is defined exactly when its denominator is nonzero. */
  function Derive(r: SleepRecord): (row: Row)
    ensures row.record == r
    ensures row.deepSleepHours == r.deepSleepSeconds as real / 3600.0
    ensures row.lightSleepHours == r.lightSleepSeconds as real / 3600.0
    ensures row.awakeHours == r.awakeSleepSeconds as real / 3600.0
    ensures row.totalSleepHours == row.deepSleepHours + row.lightSleepHours
    ensures row.totalSleepHours == (r.deepSleepSeconds + r.lightSleepSeconds) as real / 3600.0
    ensures row.totalTimeInBedHours == (r.sleepEndTimestampGMT - r.sleepStartTimestampGMT) as real / 3600.0
    ensures row.sleepEfficiency.Some? <==> r.sleepEndTimestampGMT != r.sleepStartTimestampGMT
    ensures row.sleepEfficiency.Some? ==>
      row.sleepEfficiency.value
        == (r.deepSleepSeconds + r.lightSleepSeconds) as real
           / (r.sleepEndTimestampGMT - r.sleepStartTimestampGMT) as real * 100.0
    ensures row.deepSleepPercentage.Some? <==> r.deepSleepSeconds + r.lightSleepSeconds != 0
    ensures row.deepSleepPercentage.Some? ==>
      row.deepSleepPercentage.value
        == r.deepSleepSeconds as real / (r.deepSleepSeconds + r.lightSleepSeconds) as real * 100.0
  {
    var deep := Hours(r.deepSleepSeconds);
    var light := Hours(r.lightSleepSeconds);
    var total := deep + light;
    var inBed := Hours(r.sleepEndTimestampGMT - r.sleepStartTimestampGMT);
    Row(r, deep, light, Hours(r.awakeSleepSeconds), total, inBed,
        Percentage(total, inBed), Percentage(deep, total))
  }

  /** Awake time never contributes: two records that differ only in their awake
      seconds get the same total sleep, efficiency and deep-sleep share. */
  lemma AwakeTimeExcluded(r: SleepRecord, awake: int)
    ensures var row, row' := Derive(r), Derive(r.(awakeSleepSeconds := awake));
      row'.totalSleepHours == row.totalSleepHours
      && row'.sleepEfficiency == row.sleepEfficiency
      && row'.deepSleepPercentage == row.deepSleepPercentage
      && row'.awakeHours == awake as real / 3600.0
  {
  }

  /** Efficiency is at most 100 exactly when the sleep fits in the time in bed. */
  lemma EfficiencyAtMostHundred(r: SleepRecord)
    requires r.sleepEndTimestampGMT > r.sleepStartTimestampGMT
    ensures Derive(r).sleepEfficiency.Some?
    ensures Derive(r).sleepEfficiency.value <= 100.0
      <==> r.deepSleepSeconds + r.lightSleepSeconds <= r.sleepEndTimestampGMT - r.sleepStartTimestampGMT
  {
  }

  /** The frame with its derived columns, one row per record in record order. */
  function DeriveAll(records: seq<SleepRecord>): (df: seq<Row>)
    ensures |df| == |records|
    ensures forall i :: 0 <= i < |records| ==> df[i] == Derive(records[i])
  {
    seq(|records|, i requires 0 <= i < |records| => Derive(records[i]))
  }

  /** The column of total sleep hours, in row order. */
  function TotalSleepColumn(rows: seq<Row>): (c: seq<real>)
    ensures |c| == |rows|
    ensures forall i :: 0 <= i < |rows| ==> c[i] == rows[i].totalSleepHours
  {
    seq(|rows|, i requires 0 <= i < |rows| => rows[i].totalSleepHours)
  }
}
