/**
 * Two assets of the pipeline's main asset list: the full-backfill version
 * of the storage-provider power asset, which always fetches from the
 * network's first day, and the market-deals copy, which moves the result
 * of a warehouse query into a local table batch by batch.
 */
module Assets {
  import opened Wrappers
  import opened Store
  import opened PowerFetch

  /*** Full backfill of storage-provider power ***/

  /**
   * `raw_storage_provider_daily_power` (the stateless version): fetch every
   * day from the first day to today - 2 and output the concatenated frame.
   * Building the "Sample" metadata raises when the frame has fewer than
   * SAMPLE_SIZE rows. Also returns the days requested, in request order.
   */
  method BackfillDailyPower(power: PowerSource, today: int)
    returns (r: Result<seq<PowerRow>, AssetError>, requested: seq<int>)
    ensures var f := FetchRange(power, FILECOIN_FIRST_DAY, today - SAFETY_LAG);
      requested == f.requested &&
      r == match f.result
           case Failure(e) => Failure(ApiFailed(e))
           case Success(frame) => if |frame| < SAMPLE_SIZE then Failure(SampleTooSmall(|frame|)) else Success(frame)
  {
    var frame;
    frame, requested := FetchPowerRange(power, FILECOIN_FIRST_DAY, today - SAFETY_LAG);
    if frame.Failure? {
      return Failure(ApiFailed(frame.error)), requested;
    }
    if |frame.value| < SAMPLE_SIZE {
      return Failure(SampleTooSmall(|frame.value|)), requested;
    }
    r := Success(frame.value);
  }

  /**
   * When no request raises, the backfill requests each day from the first
   * day through today - 2 once, in ascending order, and its frame holds the
   * records of all those days, each day's right after the previous day's.
   */
  lemma BackfillCoversEveryDay(power: PowerSource, today: int, day: int)
    requires AllSucceed(power, FILECOIN_FIRST_DAY, today - SAFETY_LAG)
    requires FILECOIN_FIRST_DAY <= day <= today - SAFETY_LAG
    ensures var f := FetchRange(power, FILECOIN_FIRST_DAY, today - SAFETY_LAG);
      f.requested == DayRange(FILECOIN_FIRST_DAY, today - SAFETY_LAG) && f.result.Success? &&
      |f.result.value| == RowCount(power, FILECOIN_FIRST_DAY, today - SAFETY_LAG) &&
      RowCount(power, FILECOIN_FIRST_DAY, day - 1) <= RowCount(power, FILECOIN_FIRST_DAY, day) <= |f.result.value| &&
      f.result.value[RowCount(power, FILECOIN_FIRST_DAY, day - 1)..RowCount(power, FILECOIN_FIRST_DAY, day)]
        == power(day).value
  {
    FetchRangeRowCount(power, FILECOIN_FIRST_DAY, today - SAFETY_LAG);
    FetchRangeSegment(power, FILECOIN_FIRST_DAY, today - SAFETY_LAG, day);
  }

  /** With today - 2 before the first day, nothing is requested and the frame is empty. */
  lemma BackfillBeforeFirstDayIsEmpty(power: PowerSource, today: int)
    requires today - SAFETY_LAG < FILECOIN_FIRST_DAY
    ensures FetchRange(power, FILECOIN_FIRST_DAY, today - SAFETY_LAG) == Fetched([], Success([]))
  {
  }

  /*** Copy of the market deals ***/

  const MARKET_DEALS_TABLE: string := "raw_filecoin_state_market_deals"

  /** One row of the warehouse query: a deal proposal with its latest on-chain state. */
  datatype MarketDeal = MarketDeal(
    height: int,
    dealId: int,
    stateRoot: string,
    pieceCid: string,
    paddedPieceSize: int,
    unpaddedPieceSize: int,
    isVerified: bool,
    clientId: string,
    providerId: string,
    startEpoch: int,
    endEpoch: int,
    slashedEpoch: int,
    storagePricePerEpoch: string,
    providerCollateral: string,
    clientCollateral: string,
    dealLabel: string,
    sectorStartEpoch: Option<int>,  // NULL when the deal has no state row (left join)
    slashEpoch: Option<int>)

  /** The table's columns, typed by the Arrow schema of the first batch. */
  const DEAL_COLUMNS: seq<Column> := [
    Column("height", FromArrow), Column("deal_id", FromArrow), Column("state_root", FromArrow),
    Column("piece_cid", FromArrow), Column("padded_piece_size", FromArrow),
    Column("unpadded_piece_size", FromArrow), Column("is_verified", FromArrow),
    Column("client_id", FromArrow), Column("provider_id", FromArrow), Column("start_epoch", FromArrow),
    Column("end_epoch", FromArrow), Column("slashed_epoch", FromArrow),
    Column("storage_price_per_epoch", FromArrow), Column("provider_collateral", FromArrow),
    Column("client_collateral", FromArrow), Column("label", FromArrow),
    Column("sector_start_epoch", FromArrow), Column("slash_epoch", FromArrow)
  ]

  /** `batch_size`: the rows each `fetchmany_arrow` call asks the cursor for. */
  const BATCH_SIZE: nat := 5000000

  /**
   * The warehouse cursor after the query has run: the batches that further
   * `fetchmany_arrow` calls will return, in order; once they are used up,
   * every call returns an empty batch.
   */
  class DealCursor {
    var pending: seq<seq<MarketDeal>>

    constructor (batches: seq<seq<MarketDeal>>)
      ensures pending == batches
    {
      pending := batches;
    }

    method FetchManyArrow() returns (batch: seq<MarketDeal>)
      modifies this
      ensures batch == if old(pending) == [] then [] else old(pending)[0]
      ensures pending == if old(pending) == [] then [] else old(pending)[1..]
    {
      if pending == [] {
        batch := [];
      } else {
        batch := pending[0];
        pending := pending[1..];
      }
    }
  }

  /** The batch the k-th call returns (counting from 0): empty past the last one. */
  function BatchAt<T>(batches: seq<seq<T>>, k: nat): seq<T> {
    if k < |batches| then batches[k] else []
  }

  /** The index of the first empty batch, or the number of batches if none is empty. */
  function FirstEmpty<T>(batches: seq<seq<T>>): (k: nat)
    ensures k <= |batches|
    ensures forall i :: 0 <= i < k ==> batches[i] != []
    ensures k < |batches| ==> batches[k] == []
  {
    if batches == [] || batches[0] == [] then 0 else 1 + FirstEmpty(batches[1..])
  }

  /** The batches, concatenated in order. */
  function Flatten<T>(batches: seq<seq<T>>): seq<T> {
    if batches == [] then [] else Flatten(batches[..|batches| - 1]) + batches[|batches| - 1]
  }

  /**
   * A non-empty batch at or before the stopping point lies strictly before
   * it, and copying it appends it after the batches before it.
   */
  lemma FlattenAppendBatch<T>(batches: seq<seq<T>>, k: nat)
    requires k <= FirstEmpty(batches) && k < |batches| && batches[k] != []
    ensures k < FirstEmpty(batches)
    ensures Flatten(batches[..k + 1]) == Flatten(batches[..k]) + batches[k]
  {
    assert batches[..k + 1][..k] == batches[..k];
  }

  /** What the copy leaves in the table: every batch before the first empty one, in order. */
  function CopiedRows<T>(batches: seq<seq<T>>): seq<T> {
    Flatten(batches[..FirstEmpty(batches)])
  }

  /**
   * `raw_filecoin_state_market_deals`: the first batch replaces the table,
   * then each further batch is appended while the previous one was
   * non-empty. The loop ends right after fetching the first empty batch.
   */
  method CopyMarketDeals(cursor: DealCursor, table: Table<MarketDeal>)
    requires table.name == MARKET_DEALS_TABLE
    modifies cursor, table
    ensures table.Valid() && table.present && table.columns == DEAL_COLUMNS
    ensures table.rows == CopiedRows(old(cursor.pending))
    ensures var k := FirstEmpty(old(cursor.pending));
      cursor.pending == if k < |old(cursor.pending)| then old(cursor.pending)[k + 1..] else []
  {
    ghost var batches := cursor.pending;
    ghost var stop := FirstEmpty(batches);
    var data := cursor.FetchManyArrow();
    table.CreateOrReplace(DEAL_COLUMNS, data);
    ghost var k := 0;
    while |data| > 0
      invariant 0 <= k <= stop
      invariant data == BatchAt(batches, k)
      invariant cursor.pending == if k < |batches| then batches[k + 1..] else []
      invariant table.Valid() && table.present && table.columns == DEAL_COLUMNS
      invariant table.rows == Flatten(batches[..k]) + data
      decreases |cursor.pending| + (if |data| > 0 then 1 else 0)
    {
      FlattenAppendBatch(batches, k);
      data := cursor.FetchManyArrow();
      table.Insert(data);
      k := k + 1;
    }
    assert k == stop;
  }

  lemma {:induction false} FlattenCons<T>(head: seq<T>, tail: seq<seq<T>>)
    ensures Flatten([head] + tail) == head + Flatten(tail)
    decreases |tail|
  {
    if tail != [] {
      var init := tail[..|tail| - 1];
      FlattenCons(head, init);
      assert ([head] + tail)[..|tail|] == [head] + init;
    } else {
      assert [head] + tail == [head];
      assert [head][..0] == [];
    }
  }

  /** Batches after the first empty one are never fetched, so they never reach the table. */
  lemma CopyStopsAtFirstEmptyBatch<T>(batches: seq<seq<T>>, more: seq<seq<T>>)
    requires FirstEmpty(batches) < |batches|
    ensures CopiedRows(batches + more) == CopiedRows(batches)
  {
    var k := FirstEmpty(batches);
    var whole := batches + more;
    assert whole[k] == [];
    assert FirstEmpty(whole) == k;
    assert whole[..k] == batches[..k];
  }

  /** An empty first batch leaves the table empty, whatever it held before. */
  lemma EmptyFirstBatchCopiesNothing<T>(batches: seq<seq<T>>)
    requires batches == [] || batches[0] == []
    ensures CopiedRows(batches) == []
  {
  }

  /**
   * The result set cut into batches of at most size rows each, as a cursor
   * returns it; no batch is empty.
   */
  function Chunks<T>(rows: seq<T>, size: nat): (cs: seq<seq<T>>)
    requires size > 0
    ensures forall i :: 0 <= i < |cs| ==> 0 < |cs[i]| <= size
    decreases |rows|
  {
    if rows == [] then []
    else if |rows| <= size then [rows]
    else [rows[..size]] + Chunks(rows[size..], size)
  }

  lemma {:induction false} FlattenChunks<T>(rows: seq<T>, size: nat)
    requires size > 0
    ensures Flatten(Chunks(rows, size)) == rows
    decreases |rows|
  {
    if rows == [] {
    } else if |rows| <= size {
      FlattenCons(rows, []);
    } else {
      FlattenChunks(rows[size..], size);
      FlattenCons(rows[..size], Chunks(rows[size..], size));
      assert rows[..size] + rows[size..] == rows;
    }
  }

  /**
   * Fed by a cursor that hands out the query result in batches of at most
   * size rows, the copy stores the whole result set, in query order.
   */
  lemma CopyOfChunkedResultIsComplete<T>(rows: seq<T>, size: nat)
    requires size > 0
    ensures CopiedRows(Chunks(rows, size)) == rows
  {
    var cs := Chunks(rows, size);
    assert FirstEmpty(cs) == |cs|;
    assert cs[..|cs|] == cs;
    FlattenChunks(rows, size);
  }

  /**
   * The asset's own setting: read 5,000,000 rows per `fetchmany_arrow` call,
   * the copy stores the whole deals query result, in query order, with no
   * batch empty or over BATCH_SIZE rows.
   */
  lemma MarketDealsCopyIsComplete(rows: seq<MarketDeal>)
    ensures var cs := Chunks(rows, BATCH_SIZE);
      CopiedRows(cs) == rows && forall i :: 0 <= i < |cs| ==> 0 < |cs[i]| <= BATCH_SIZE
  {
    CopyOfChunkedResultIsComplete(rows, BATCH_SIZE);
  }
}
