/**
 * The incremental storage-provider power asset: resume from the latest
 * `stat_date` already stored (or from the network's first day on a cold
 * start), fetch every day up to the safety cutoff, and append the result
 * to the table in one insert.
 */
module Spacescope {
  import opened Wrappers
  import opened Store
  import opened PowerFetch

  const POWER_TABLE: string := "main.raw_storage_provider_daily_power"

  /** The schema the table is created with on a cold start. */
  const POWER_COLUMNS: seq<Column> := [
    Column("stat_date", Varchar),
    Column("miner_id", Varchar),
    Column("raw_byte_power", BigInt),
    Column("quality_adj_power", BigInt)
  ]

  /** `max(stat_date)` over the stored rows; None (SQL NULL) for no rows. */
  function MaxStatDate(rows: seq<PowerRow>): (m: Option<int>)
    ensures m.None? <==> rows == []
    ensures m.Some? ==> exists i :: 0 <= i < |rows| && rows[i].statDate == m.value
    ensures forall i :: 0 <= i < |rows| ==> m.Some? && rows[i].statDate <= m.value
  {
    if rows == [] then None
    else
      var init, last := rows[..|rows| - 1], rows[|rows| - 1].statDate;
      match MaxStatDate(init)
      case None => Some(last)
      case Some(m) =>
        assert forall i :: 0 <= i < |init| ==> init[i] == rows[i];
        Some(if m < last then last else m)
  }

  /**
   * The watermark query `select max(stat_date)`: raises a catalog error
   * naming the table when it does not exist; on an existing table, NULL for
   * no rows, and otherwise the latest stored day.
   */
  function SelectMaxStatDate(present: bool, rows: seq<PowerRow>): (r: Result<Option<int>, CatalogError>)
    ensures r.Failure? <==> !present
    ensures r.Failure? ==> r.error == TableNotFound(POWER_TABLE)
    ensures r.Success? ==> (r.value.None? <==> rows == [])
    ensures r.Success? && r.value.Some? ==>
      (exists i :: 0 <= i < |rows| && rows[i].statDate == r.value.value) &&
      (forall i :: 0 <= i < |rows| ==> rows[i].statDate <= r.value.value)
  {
    if present then Success(MaxStatDate(rows)) else Failure(TableNotFound(POWER_TABLE))
  }

  /**
   * `from_day`: the watermark the query returned, or the first day when the
   * table was missing (catalog error) or empty (NULL).
   */
  function StartDay(lookup: Result<Option<int>, CatalogError>): (d: int)
    ensures lookup.Success? && lookup.value.Some? ==> d == lookup.value.value
    ensures lookup.Failure? || lookup == Success(None) ==> d == FILECOIN_FIRST_DAY
  {
    match lookup
    case Success(Some(w)) => w
    case _ => FILECOIN_FIRST_DAY
  }

  /** What a run that did not raise reports. */
  datatype Materialization = UpToDate | Persisted(appended: nat) {
    /** The "Rows" metadata entry. */
    function Rows(): nat {
      match this
      case UpToDate => 0
      case Persisted(n) => n
    }
  }

  /** The effect of one run: the table's rows afterwards, the days requested, the outcome. */
  datatype Run = Run(rows: seq<PowerRow>, requested: seq<int>, outcome: Result<Materialization, AssetError>)

  /** One run of the asset on a table with the given state, on the given day. */
  function IngestSpec(present: bool, rows: seq<PowerRow>, power: PowerSource, today: int): (r: Run)
    // a run reports "up to date" exactly when it requests nothing
    ensures r.requested == [] <==> r.outcome == Success(UpToDate)
    // the rows reported, or counted for the sample, are the rows appended
    ensures r.outcome.Success? ==> |r.rows| == |rows| + r.outcome.value.Rows()
    ensures r.outcome.Failure? && r.outcome.error.SampleTooSmall? ==> |r.rows| == |rows| + r.outcome.error.rows
  {
    var from := StartDay(SelectMaxStatDate(present, rows));
    var to := today - SAFETY_LAG;
    if from >= to then Run(rows, [], Success(UpToDate))
    else
      var f := FetchRange(power, from, to);
      FetchRangeRequestsFirstDay(power, from, to);
      match f.result
      case Failure(e) => Run(rows, f.requested, Failure(ApiFailed(e)))
      case Success(frame) =>
        Run(rows + frame, f.requested,
            if |frame| < SAMPLE_SIZE then Failure(SampleTooSmall(|frame|)) else Success(Persisted(|frame|)))
  }

  /**
   * `raw_storage_provider_daily_power`. Returns the outcome and the days
   * requested from the upstream, in request order.
   */
  method IngestDailyPower(table: Table<PowerRow>, power: PowerSource, today: int)
    returns (r: Result<Materialization, AssetError>, requested: seq<int>)
    requires table.Valid() && table.name == POWER_TABLE
    modifies table
    ensures table.Valid() && table.present
    ensures table.columns == if old(table.present) then old(table.columns) else POWER_COLUMNS
    ensures var run := IngestSpec(old(table.present), old(table.rows), power, today);
      table.rows == run.rows && requested == run.requested && r == run.outcome
  {
    var fromDay: Option<int>;
    match SelectMaxStatDate(table.present, table.rows) {
      case Success(maxDate) =>
        fromDay := maxDate;
      case Failure(_) =>
        fromDay := Some(FILECOIN_FIRST_DAY);
        table.Create(POWER_COLUMNS);
    }
    var start := if fromDay.Some? then fromDay.value else FILECOIN_FIRST_DAY;
    var cutoff := today - SAFETY_LAG;
    if start >= cutoff {
      return Success(UpToDate), [];
    }
    var frame;
    frame, requested := FetchPowerRange(power, start, cutoff);
    if frame.Failure? {
      return Failure(ApiFailed(frame.error)), requested;
    }
    table.Insert(frame.value);
    if |frame.value| < SAMPLE_SIZE {
      return Failure(SampleTooSmall(|frame.value|)), requested;
    }
    r := Success(Persisted(|frame.value|));
  }

  /**
   * A missing table and an empty one both resume from the first day;
   * otherwise a run resumes from the latest stored day.
   */
  lemma StartDayIsWatermarkOrEpoch(present: bool, rows: seq<PowerRow>)
    ensures !present || rows == [] ==> StartDay(SelectMaxStatDate(present, rows)) == FILECOIN_FIRST_DAY
    ensures present && rows != [] ==>
      var from := StartDay(SelectMaxStatDate(present, rows));
      (exists i :: 0 <= i < |rows| && rows[i].statDate == from) &&
      (forall i :: 0 <= i < |rows| ==> rows[i].statDate <= from)
  {
  }

  /** The cutoff is today - 2, and a run with nothing before it fetches nothing and changes nothing. */
  lemma UpToDateRunChangesNothing(present: bool, rows: seq<PowerRow>, power: PowerSource, today: int)
    requires StartDay(SelectMaxStatDate(present, rows)) >= today - SAFETY_LAG
    ensures var run := IngestSpec(present, rows, power, today);
      run.rows == rows && run.requested == [] && run.outcome == Success(UpToDate) &&
      run.outcome.value.Rows() == 0
  {
  }

  /** Stored rows are never changed or removed: the old rows are a prefix of the new ones. */
  lemma RunIsAppendOnly(present: bool, rows: seq<PowerRow>, power: PowerSource, today: int)
    ensures var run := IngestSpec(present, rows, power, today);
      |rows| <= |run.rows| && run.rows[..|rows|] == rows
  {
  }

  /**
   * Running twice on the same day: once the first run has stored a row dated
   * today - 2, the second run is up to date and changes nothing.
   */
  lemma SameDayRerunIsUpToDate(present: bool, rows: seq<PowerRow>, power: PowerSource, today: int, x: PowerRow)
    requires x in IngestSpec(present, rows, power, today).rows && x.statDate == today - SAFETY_LAG
    ensures var run1 := IngestSpec(present, rows, power, today);
      IngestSpec(true, run1.rows, power, today) == Run(run1.rows, [], Success(UpToDate))
  {
  }

  /**
   * When no request raises, a run that is not up to date requests every day
   * of [from_day, today - 2] once, in ascending order, appends exactly the
   * records returned, and reports their number.
   */
  lemma {:induction false} FullWindowRun(present: bool, rows: seq<PowerRow>, power: PowerSource, today: int)
    requires StartDay(SelectMaxStatDate(present, rows)) < today - SAFETY_LAG
    requires AllSucceed(power, StartDay(SelectMaxStatDate(present, rows)), today - SAFETY_LAG)
    ensures var from := StartDay(SelectMaxStatDate(present, rows));
      var run := IngestSpec(present, rows, power, today);
      var n := RowCount(power, from, today - SAFETY_LAG);
      run.requested == DayRange(from, today - SAFETY_LAG) &&
      |run.rows| == |rows| + n &&
      run.outcome == if n < SAMPLE_SIZE then Failure(SampleTooSmall(n)) else Success(Persisted(n))
  {
    FetchRangeRowCount(power, StartDay(SelectMaxStatDate(present, rows)), today - SAFETY_LAG);
  }

  /** In such a run, the records of each day of the window are appended in day order. */
  lemma {:induction false} FullWindowRunDay(present: bool, rows: seq<PowerRow>, power: PowerSource, today: int, day: int)
    requires StartDay(SelectMaxStatDate(present, rows)) < today - SAFETY_LAG
    requires StartDay(SelectMaxStatDate(present, rows)) <= day <= today - SAFETY_LAG
    requires AllSucceed(power, StartDay(SelectMaxStatDate(present, rows)), today - SAFETY_LAG)
    ensures var from := StartDay(SelectMaxStatDate(present, rows));
      var run := IngestSpec(present, rows, power, today);
      AllSucceed(power, from, day) && AllSucceed(power, from, day - 1) &&
      |rows| + RowCount(power, from, day) <= |run.rows| &&
      run.rows[|rows| + RowCount(power, from, day - 1)..|rows| + RowCount(power, from, day)] == power(day).value
  {
    var from := StartDay(SelectMaxStatDate(present, rows));
    FetchRangeSegment(power, from, today - SAFETY_LAG, day);
    var frame := FetchRange(power, from, today - SAFETY_LAG).result.value;
    var lo, hi := RowCount(power, from, day - 1), RowCount(power, from, day);
    assert (rows + frame)[|rows| + lo..|rows| + hi] == frame[lo..hi];
  }

  /**
   * A request that raises aborts the run: nothing is appended, and the days
   * requested run from from_day up to the first day that raised.
   */
  lemma {:induction false} FailedRunAppendsNothing(present: bool, rows: seq<PowerRow>, power: PowerSource, today: int)
    requires IngestSpec(present, rows, power, today).outcome.Failure?
    requires IngestSpec(present, rows, power, today).outcome.error.ApiFailed?
    ensures var from := StartDay(SelectMaxStatDate(present, rows));
      var run := IngestSpec(present, rows, power, today);
      var day := from + |run.requested| - 1;
      run.rows == rows &&
      from <= day <= today - SAFETY_LAG && run.requested == DayRange(from, day) &&
      AllSucceed(power, from, day - 1) && power(day) == Failure(run.outcome.error.cause)
  {
    FetchRangeStopsAtFirstFailure(power, StartDay(SelectMaxStatDate(present, rows)), today - SAFETY_LAG);
  }

  /**
   * A run that is not up to date requests a non-empty run of consecutive
   * days that starts at from_day and does not pass today - 2.
   */
  lemma RequestsStartAtFromDay(present: bool, rows: seq<PowerRow>, power: PowerSource, today: int)
    requires StartDay(SelectMaxStatDate(present, rows)) < today - SAFETY_LAG
    ensures var from := StartDay(SelectMaxStatDate(present, rows));
      var run := IngestSpec(present, rows, power, today);
      0 < |run.requested| <= today - SAFETY_LAG - from + 1 &&
      run.requested == DayRange(from, from + |run.requested| - 1)
  {
    var from := StartDay(SelectMaxStatDate(present, rows));
    var f := FetchRange(power, from, today - SAFETY_LAG);
    assert IngestSpec(present, rows, power, today).requested == f.requested;
    if f.result.Failure? {
      FetchRangeStopsAtFirstFailure(power, from, today - SAFETY_LAG);
    }
  }

  /** With a watermark W before the cutoff, the first day requested is W itself, not W + 1. */
  lemma WatermarkDayIsRefetched(rows: seq<PowerRow>, power: PowerSource, today: int)
    requires rows != [] && MaxStatDate(rows).value < today - SAFETY_LAG
    ensures var run := IngestSpec(true, rows, power, today);
      run.requested != [] && run.requested[0] == MaxStatDate(rows).value
  {
    var w := MaxStatDate(rows).value;
    assert StartDay(SelectMaxStatDate(true, rows)) == w;
    RequestsStartAtFromDay(true, rows, power, today);
  }

  /**
   * There is no de-duplication: a stored row dated on the watermark day that
   * the upstream returns again for that day is stored twice after the run.
   */
  lemma {:induction false} WatermarkRowsAreDuplicated(rows: seq<PowerRow>, power: PowerSource, today: int, x: PowerRow)
    requires x in rows && MaxStatDate(rows) == Some(x.statDate) && x.statDate < today - SAFETY_LAG
    requires AllSucceed(power, x.statDate, today - SAFETY_LAG)
    requires x in power(x.statDate).value
    ensures multiset(IngestSpec(true, rows, power, today).rows)[x] >= 2
  {
    var w := x.statDate;
    FullWindowRunDay(true, rows, power, today, w);
    var run := IngestSpec(true, rows, power, today);
    var frame := FetchRange(power, w, today - SAFETY_LAG).result.value;
    assert run.rows == rows + frame;
    assert RowCount(power, w, w - 1) == 0;
    assert frame[..|power(w).value|] == power(w).value;
    assert x in frame;
    assert multiset(run.rows) == multiset(rows) + multiset(frame);
  }

  /** No table, today 2020-10-20: the days 2020-10-15 .. 2020-10-18 are requested. */
  lemma ColdStartScenario(power: PowerSource)
    requires AllSucceed(power, FILECOIN_FIRST_DAY, FILECOIN_FIRST_DAY + 3)
    ensures IngestSpec(false, [], power, FILECOIN_FIRST_DAY + 5).requested
            == [FILECOIN_FIRST_DAY, FILECOIN_FIRST_DAY + 1, FILECOIN_FIRST_DAY + 2, FILECOIN_FIRST_DAY + 3]
  {
    FullWindowRun(false, [], power, FILECOIN_FIRST_DAY + 5);
  }

  /** Watermark 2023-05-01 (day 19478), today 2023-05-02: already up to date. */
  lemma CaughtUpScenario(rows: seq<PowerRow>, power: PowerSource)
    requires MaxStatDate(rows) == Some(19478)
    ensures IngestSpec(true, rows, power, 19479) == Run(rows, [], Success(UpToDate))
  {
  }
}
