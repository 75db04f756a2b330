/**
 * Storage-provider daily power as served by the Spacescope API, and the
 * day-by-day fetch loop that both power assets run: one request per
 * calendar day, in ascending order, concatenating the records returned.
 *
 * Calendar days are day numbers: day 0 is 1970-01-01.
 */
module PowerFetch {
  import opened Wrappers

  /** 2020-10-15, the first day the upstream has power data for. */
  const FILECOIN_FIRST_DAY: int := 18550

  /** Upstream data is considered final two days after the fact. */
  const SAFETY_LAG: int := 2

  /** The number of rows shown in an asset's "Sample" metadata. */
  const SAMPLE_SIZE: nat := 5

  /** One record of the power data: one storage provider on one day. */
  datatype PowerRow = PowerRow(statDate: int, minerId: string, rawBytePower: int, qualityAdjPower: int)

  /** A request to the upstream that raised instead of returning records. */
  datatype ApiError = ApiError(message: string)

  /** How a power asset run can fail. */
  datatype AssetError =
    | ApiFailed(cause: ApiError)   // a day's request raised; the run stops there
    | SampleTooSmall(rows: nat)    // fewer than SAMPLE_SIZE rows to sample for the metadata

  /** What the upstream answers for each calendar day. */
  type PowerSource = int -> Result<seq<PowerRow>, ApiError>

  /** Every calendar day from first to last, both included, in ascending order. */
  function DayRange(first: int, last: int): (days: seq<int>)
    ensures |days| == if last < first then 0 else last - first + 1
    ensures forall i :: 0 <= i < |days| ==> days[i] == first + i
    decreases last - first
  {
    if last < first then [] else DayRange(first, last - 1) + [last]
  }

  /** The days requested so far and what the loop holds after them. */
  datatype Fetched = Fetched(requested: seq<int>, result: Result<seq<PowerRow>, ApiError>)

  /**
   * The fetch loop over the days first..last: each day is requested in turn
   * and its records are appended to the frame; the first request that
   * raises ends the loop, and no day after it is requested.
   */
  function FetchRange(power: PowerSource, first: int, last: int): (f: Fetched)
    ensures f.result.Success? ==> f.requested == DayRange(first, last)
    decreases last - first
  {
    if last < first then Fetched([], Success([]))
    else
      var prev := FetchRange(power, first, last - 1);
      if prev.result.Failure? then prev
      else
        var answer := power(last);
        Fetched(prev.requested + [last],
                if answer.Failure? then Failure(answer.error) else Success(prev.result.value + answer.value))
  }

  /** No request for a day in first..last raises. */
  ghost predicate AllSucceed(power: PowerSource, first: int, last: int) {
    forall day :: first <= day <= last ==> power(day).Success?
  }

  /** The sum of the per-day record counts over first..last. */
  ghost function RowCount(power: PowerSource, first: int, last: int): nat
    requires AllSucceed(power, first, last)
    decreases last - first
  {
    if last < first then 0 else RowCount(power, first, last - 1) + |power(last).value|
  }

  /** The loop gets through every day exactly when no day's request raises. */
  lemma {:induction false} FetchRangeSucceedsIff(power: PowerSource, first: int, last: int)
    ensures FetchRange(power, first, last).result.Success? <==> AllSucceed(power, first, last)
    decreases last - first
  {
    if first <= last {
      FetchRangeSucceedsIff(power, first, last - 1);
    }
  }

  /**
   * A loop that fails stops at the first day whose request raises: the days
   * up to it were requested in order, every earlier one succeeded, and the
   * error is that day's.
   */
  lemma {:induction false} FetchRangeStopsAtFirstFailure(power: PowerSource, first: int, last: int)
    requires FetchRange(power, first, last).result.Failure?
    ensures var f := FetchRange(power, first, last); var day := first + |f.requested| - 1;
      first <= day <= last && f.requested == DayRange(first, day) &&
      AllSucceed(power, first, day - 1) && power(day) == Failure(f.result.error)
    decreases last - first
  {
    var prev := FetchRange(power, first, last - 1);
    if prev.result.Failure? {
      FetchRangeStopsAtFirstFailure(power, first, last - 1);
    } else {
      FetchRangeSucceedsIff(power, first, last - 1);
    }
  }

  /** A loop over a non-empty range requests at least its first day, and that one first. */
  lemma {:induction false} FetchRangeRequestsFirstDay(power: PowerSource, first: int, last: int)
    requires first <= last
    ensures |FetchRange(power, first, last).requested| > 0
    ensures FetchRange(power, first, last).requested[0] == first
    decreases last - first
  {
    if first < last {
      FetchRangeRequestsFirstDay(power, first, last - 1);
    }
  }

  /** One more day after a loop that has not failed: request it and append its records. */
  lemma FetchRangeExtend(power: PowerSource, first: int, day: int, requested: seq<int>, frame: seq<PowerRow>)
    requires first <= day
    requires FetchRange(power, first, day - 1) == Fetched(requested, Success(frame))
    ensures FetchRange(power, first, day) ==
      Fetched(requested + [day], if power(day).Failure? then Failure(power(day).error) else Success(frame + power(day).value))
  {
  }

  /** Once the loop has failed on some day, later days change nothing. */
  lemma {:induction false} FetchRangeAfterFailure(power: PowerSource, first: int, day: int, last: int)
    requires day <= last
    requires FetchRange(power, first, day).result.Failure?
    ensures FetchRange(power, first, last) == FetchRange(power, first, day)
    decreases last - day
  {
    if day < last {
      FetchRangeAfterFailure(power, first, day, last - 1);
    }
  }

  /** The frame holds as many rows as all the days returned together. */
  lemma {:induction false} FetchRangeRowCount(power: PowerSource, first: int, last: int)
    requires AllSucceed(power, first, last)
    ensures FetchRange(power, first, last).result.Success?
    ensures |FetchRange(power, first, last).result.value| == RowCount(power, first, last)
    decreases last - first
  {
    FetchRangeSucceedsIff(power, first, last);
    if first <= last {
      FetchRangeRowCount(power, first, last - 1);
    }
  }

  /**
   * The frame is the in-order concatenation of the per-day results: the
   * records of each day sit right after those of the days before it.
   */
  lemma {:induction false} FetchRangeSegment(power: PowerSource, first: int, last: int, day: int)
    requires AllSucceed(power, first, last) && first <= day <= last
    ensures FetchRange(power, first, last).result.Success?
    ensures RowCount(power, first, day - 1) <= RowCount(power, first, day) <= |FetchRange(power, first, last).result.value|
    ensures FetchRange(power, first, last).result.value[RowCount(power, first, day - 1)..RowCount(power, first, day)]
            == power(day).value
    decreases last - first
  {
    FetchRangeRowCount(power, first, last);
    FetchRangeRowCount(power, first, last - 1);
    var prev := FetchRange(power, first, last - 1).result.value;
    var frame := FetchRange(power, first, last).result.value;
    assert frame == prev + power(last).value;
    if day < last {
      FetchRangeSegment(power, first, last - 1, day);
      var lo, hi := RowCount(power, first, day - 1), RowCount(power, first, day);
      assert frame[lo..hi] == prev[lo..hi];
    } else {
      assert frame[|prev|..] == power(last).value;
    }
  }

  /**
   * The loop `for day in date_range(first, last)`: request each day in turn
   * (`get_storage_provider_power(date=day, storage_provider=None)`) and
   * concatenate its records onto the frame; a request that raises ends the
   * run. Besides the frame, the method returns the days it requested, in
   * the order it requested them.
   */
  method FetchPowerRange(power: PowerSource, first: int, last: int)
    returns (r: Result<seq<PowerRow>, ApiError>, requested: seq<int>)
    ensures var f := FetchRange(power, first, last); requested == f.requested && r == f.result
  {
    var frame: seq<PowerRow> := [];
    requested := [];
    var day := first;
    while day <= last
      invariant first <= day
      invariant day <= last + 1 || day == first
      invariant FetchRange(power, first, day - 1) == Fetched(requested, Success(frame))
      decreases last - day
    {
      var records := power(day);
      FetchRangeExtend(power, first, day, requested, frame);
      requested := requested + [day];
      if records.Failure? {
        FetchRangeAfterFailure(power, first, day, last);
        return Failure(records.error), requested;
      }
      frame := frame + records.value;
      day := day + 1;
    }
    r := Success(frame);
  }
}
