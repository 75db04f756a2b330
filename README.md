# Filecoin analytics ingestion: a Dafny model

This project models the ingestion logic of a Filecoin data pipeline. The pipeline's assets pull datasets from
external sources into a local DuckDB database. Three pieces of it are modelled:

- **Incremental storage-provider power** (`fdp/assets/spacescope.py`). The asset reads the latest
  `stat_date` stored in `main.raw_storage_provider_daily_power`. If the table is missing, it creates it with
  the four-column schema and starts from 2020-10-15, the network's first day. An empty table also starts
  there. The cutoff is today − 2 days. If the start is not before the cutoff, the run reports 0 rows and
  stops. Otherwise it requests every day from the start through the cutoff, in ascending order. It
  concatenates the records and appends them with one insert. It resumes *at* the watermark day W, not at
  W + 1. So day W is requested again and its records are appended again: nothing removes duplicates.
- **Full backfill of power** (`fdp/assets.py`, the older asset of the same name). It runs the same day loop
  with no stored state, always from the first day through today − 2.
- **Market-deals copy** (`fdp/assets.py`, `raw_filecoin_state_market_deals`). The first batch from the
  warehouse cursor replaces the local table (`create or replace`). Each later batch is appended while the
  previous one was non-empty. The loop ends right after the first empty batch.

Calendar days are integer day numbers, with day 0 = 1970-01-01. The first day, 2020-10-15, is day 18550
(`PowerFetch.FILECOIN_FIRST_DAY`).

The upstream power API is a function from a day to either that day's records or an error (`PowerSource`).
An error stands for a request that raised: it aborts the run, and nothing fetched in that run is appended.
A cold-start table has already been created by then, so it stays, empty. The day loop also returns the
days it requested, in request order, so "one request per day, ascending" can be stated.

A stored table is a `Store.Table` object: an existence flag, its columns and its rows in insertion order.
`Create`, `Insert` and `CreateOrReplace` stand for the three SQL statements the assets issue.

Both power assets build a "Sample" metadata entry with `df.sample(5)`, and pandas raises when the frame has
fewer than five rows. The model keeps that as the error `SampleTooSmall`. In the incremental asset this
happens after the insert, so the rows are already stored when the run fails. In the backfill, a cutoff
before the first day gives an empty frame, and the run raises on the sample. The random choice of
sample rows is not modelled.

The run resumes at the watermark W itself, not at W + 1 (`fdp/assets/spacescope.py:25-33` and `47`). A
re-run on the same day, after a run that stored rows dated today − 2, is up to date and appends nothing
(`SameDayRerunIsUpToDate`). The watermark day's rows are duplicated on the next run that is not up to
date (`WatermarkRowsAreDuplicated`).

Modules: `Wrappers` (Option, Result), `Store` (the DuckDB table), `PowerFetch` (power records, the day range
and the shared day loop), `Spacescope` (the incremental asset), `Assets` (the backfill and the deals copy).

## Model

| member | source | states |
|---|---|---|
| `PowerFetch.DayRange` | fdp/assets/spacescope.py:68 | the days iterated are first..last inclusive, ascending, one per calendar day; none when last < first |
| `PowerFetch.FetchRange` | fdp/assets/spacescope.py:66-78 | a day loop that completes has requested exactly the days first..last, in order |
| `PowerFetch.FetchRangeSucceedsIff` | fdp/assets/spacescope.py:68-75 | the loop gets through the window if and only if no day's request raises |
| `PowerFetch.FetchRangeStopsAtFirstFailure` | fdp/assets/spacescope.py:68-75 | a failed loop requested first..d in order, every day before d succeeded, d raised, and the run's error is d's |
| `PowerFetch.FetchRangeAfterFailure` | fdp/assets/spacescope.py:68-72 | once a day raises, no later day is requested and the outcome does not change |
| `PowerFetch.FetchRangeRowCount` | fdp/assets/spacescope.py:73-75 | the frame's length is the sum of the per-day record counts |
| `PowerFetch.FetchRangeSegment` | fdp/assets/spacescope.py:73-75 | the frame is the in-order concatenation of the per-day answers: each day's records sit right after those of all earlier days |
| `PowerFetch.FetchPowerRange` | fdp/assets/spacescope.py:66-78 | the loop returns the frame, or the first error, and the requested days that `FetchRange` specifies |
| `Store.Table.Create` | fdp/assets/spacescope.py:36-45 | `create table` makes a missing table exist, with the given columns and no rows |
| `Store.Table.Insert` | fdp/assets/spacescope.py:80-85 | `insert ... select * from df` keeps the columns and puts the new rows after the old ones |
| `Store.Table.CreateOrReplace` | fdp/assets.py:156-162 | `create or replace table` discards prior contents; the table then holds exactly the batch |
| `Spacescope.MaxStatDate` | fdp/assets/spacescope.py:25-33 | `max(stat_date)` is NULL exactly for no rows; otherwise it is some row's date and no row's date is later |
| `Spacescope.SelectMaxStatDate` | fdp/assets/spacescope.py:24-35 | the `max(stat_date)` query raises a catalog error naming the table exactly when the table is missing; on an existing table it is NULL exactly for no rows, and otherwise some row's date that no row's date exceeds |
| `Spacescope.StartDay` | fdp/assets/spacescope.py:32-47 | `from_day` is the watermark the query returned; the first day when the table was missing or held no rows |
| `Spacescope.IngestSpec` | fdp/assets/spacescope.py:47-94 | one run reports "up to date" exactly when it requests no day; a run that reports "Rows" n, or fails the sample on n rows, has appended exactly n rows |
| `Spacescope.IngestDailyPower` | fdp/assets/spacescope.py:11-96 | run on `main.raw_storage_provider_daily_power`: afterwards the table exists, with the fixed schema if it was just created; its rows, the days requested and the outcome are those of `IngestSpec` on the old state |
| `Spacescope.StartDayIsWatermarkOrEpoch` | fdp/assets/spacescope.py:24-47 | a missing or empty table starts at 2020-10-15; otherwise the start is the latest stored `stat_date` |
| `Spacescope.UpToDateRunChangesNothing` | fdp/assets/spacescope.py:49-60 | with from_day ≥ today − 2, including equality, nothing is requested, the rows are unchanged and "Rows" is 0 |
| `Spacescope.RunIsAppendOnly` | fdp/assets/spacescope.py:80-85 | in every run, the old rows are an unchanged prefix of the new rows |
| `Spacescope.SameDayRerunIsUpToDate` | fdp/assets/spacescope.py:25-60 | two runs on the same day: once the first has stored a row dated today − 2, the second requests nothing and leaves the rows as the first left them |
| `Spacescope.FullWindowRun` | fdp/assets/spacescope.py:62-94 | with no request raising, every day from_day..today−2 is requested once, ascending; the table grows by the sum of the per-day counts, and that sum is the reported "Rows" (or the sample raises below 5) |
| `Spacescope.FullWindowRunDay` | fdp/assets/spacescope.py:68-85 | in such a run, each day's records are appended in day order, after the old rows |
| `Spacescope.FailedRunAppendsNothing` | fdp/assets/spacescope.py:68-85 | a request that raises leaves the rows unchanged; the requests run from from_day to the first failing day, whose error is reported |
| `Spacescope.RequestsStartAtFromDay` | fdp/assets/spacescope.py:47-72 | a run that is not up to date requests consecutive days starting at from_day, never past today − 2 |
| `Spacescope.WatermarkDayIsRefetched` | fdp/assets/spacescope.py:25-72 | with a watermark W before the cutoff, the first day requested is W itself |
| `Spacescope.WatermarkRowsAreDuplicated` | fdp/assets/spacescope.py:25-85 | a stored row dated W that the upstream returns again for W is present at least twice after the run |
| `Spacescope.ColdStartScenario` | fdp/assets/spacescope.py:34-72 | no table and today = 2020-10-20: exactly 2020-10-15 .. 2020-10-18 are requested |
| `Spacescope.CaughtUpScenario` | fdp/assets/spacescope.py:47-60 | watermark 2023-05-01 and today 2023-05-02: up to date, nothing requested or changed |
| `Assets.BackfillDailyPower` | fdp/assets.py:35-60 | the backfill requests what `FetchRange` specifies for 2020-10-15 .. today − 2 and outputs the frame; it raises on a failed request or a frame under 5 rows |
| `Assets.BackfillCoversEveryDay` | fdp/assets.py:47-55 | with no request raising, every day from the first day to today − 2 is requested once, in order; the frame is the concatenation of the per-day answers, and its length is their sum |
| `Assets.BackfillBeforeFirstDayIsEmpty` | fdp/assets.py:44-55 | with today − 2 before the first day, nothing is requested and the frame is empty |
| `Assets.FirstEmpty` | fdp/assets.py:166 | the loop's stopping batch is the first empty one: every batch before it is non-empty |
| `Assets.CopyMarketDeals` | fdp/assets.py:154-177 | run on `raw_filecoin_state_market_deals`: the table exists and holds exactly the batches before the first empty one, in fetch order, whatever it held before; the cursor has consumed exactly those batches and the empty one |
| `Assets.DealCursor.FetchManyArrow` | fdp/assets.py:155 | a fetch returns the next pending batch and consumes it; once all are consumed it returns an empty batch |
| `Assets.CopyStopsAtFirstEmptyBatch` | fdp/assets.py:166-175 | batches after the first empty one never reach the table |
| `Assets.EmptyFirstBatchCopiesNothing` | fdp/assets.py:155-166 | an empty first batch leaves the table empty |
| `Assets.Chunks` | fdp/assets.py:109-167 | a cursor reading `batch_size` rows at a time returns non-empty batches of at most that size |
| `Assets.CopyOfChunkedResultIsComplete` | fdp/assets.py:155-175 | fed such batches, the copy stores the whole query result, in query order |
| `Assets.MarketDealsCopyIsComplete` | fdp/assets.py:109-177 | with `batch_size` = 5,000,000, the copy stores the whole deals query result in query order, and every batch is non-empty and at most 5,000,000 rows |

## Left out

- The Spacescope HTTP client is not part of this model. A day's answer is the `PowerSource` function's
  value. Date formatting (`strftime`) and the `storage_provider=None` argument are not modelled.
- `stat_date` is stored as VARCHAR, so `max(stat_date)` is a text maximum, and `pd.to_datetime` parses it.
  The model stores day numbers and takes the integer maximum. The two agree for ISO `YYYY-MM-DD` dates with
  four-digit years. Text parsing is not modelled.
- The model does not bound `raw_byte_power` / `quality_adj_power` to BIGINT's signed 64-bit range. The
  insert raising on an out-of-range value is not modelled.
- `stat_date` is never NULL in the model, because `PowerRow.statDate` is an integer. So `max(stat_date)`
  is NULL only for a table with no rows, not also for a table whose every `stat_date` is NULL.
- The final insert never fails in the model. DuckDB's behaviour when every day returns no records (a frame
  with no columns) is not modelled: the model appends nothing.
- `df.sample(5)`: which rows are sampled (random) and the Markdown text are left out. Only its rule of
  raising below five rows is kept.
- Logging, `print`, the `MaterializeResult`/`Output` objects, and the Dagster IO manager that stores the
  backfill frame are observability or orchestration only. The backfill returns its frame.
- The warehouse SQL (dedup window, join, order) runs remotely and is not modelled. Its result is an
  opaque sequence of batches (`DealCursor.pending`). `MarketDeal`'s field types are this model's reading of
  the column names: the warehouse schema is not in the source.
- `CopyMarketDeals`: a failing `fetchmany_arrow` or a failing `insert` is not modelled, so the model's copy
  always completes. In the code, `create or replace` has already committed by then, so such a failure
  leaves a partial table: the batches copied so far, with the prior contents discarded. The copy is not
  all-or-nothing, unlike the power asset's fetch loop.
- `CopyMarketDeals` does not take `batch_size`. The cursor's batches are given. `Chunks` describes a cursor
  that reads `size` rows at a time, and `MarketDealsCopyIsComplete` instantiates it at `BATCH_SIZE`.
- Connection scoping, the unused `duckdb.get_connection()` call in the deals asset, concurrency and
  cancellation are not modelled. The source has no concurrency.
- `raw_datacapstats_verified_clients` and `raw_storage_providers_location_provider_quest` are left out.
  They are HTTP JSON reads normalized by pandas, so the behaviour is all external.
- The commented-out S3/zstd market-deals code is dead code and is left out.
- `fdp/__init__.py` is configuration wiring only and is left out.
