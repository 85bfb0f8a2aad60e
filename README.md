# Power-plant profitability core, in Dafny

This project models the calculation behind the power-plant analytics
dashboard (`dashboard.js`). It has two parts.

- **Derived-cost calculator** (`derived.dfy`, module `DerivedCosts`). It
  turns the parameter form into four hourly figures: gas volume, gas cost,
  heat revenue, and the operating cost, which is gas cost minus heat
  revenue. The operating cost may be negative.
- **Profitability aggregator** (`aggregator.dfy`, module `Aggregator`). It
  makes one row-major scan over an already parsed, possibly ragged table of
  prices. Row 0 and column 0 are headers. A cell is a profitable hour when
  its price is over 5000. For each such cell the scan:
  - bumps a counter;
  - adds the hour's profit (price − base price − operating cost) to a
    running total and to the row's slot of a 31-slot daily array, updated
    in place;
  - appends an hourly record;
  - raises the running peak on a strictly higher price.

  Afterwards it computes the net profit (total − expenses) and the daily
  list `{day: index + 1, profit}`.

`profitability.dfy` (module `Profitability`) holds the data model and the
specification of the scan:
- the records made after a given number of rows and columns
  (`RowRecords`, `GridRecords`, `ScanRecords`);
- folds over those records (`SumProfit`, `DayTotal`, `PeakOf`);
- direct cell-by-cell sums over the table (`RowProfitSum`,
  `GridProfitSum`, `DayProfit`);
- the expected results record, `Report`.

The method `Aggregator.ProcessGrid` is proved to return exactly `Report`.
`scan_properties.dfy` (module `ScanProperties`) proves what `Report` says
about the table itself: counts, sums and maxima over the set of profitable
cells.

Modelling choices:
- Prices are `real`, and the factor 3.6 is the exact real 3.6.
- The label "Day r Hour c" is the pair `(r, c)`. The empty peak label is
  `None`.
- The running counters are bundled in a `Tally` value whose fields carry
  the names used in the source.
- The nested loop is split across three methods. `ProcessGrid` runs the
  row loop. `ScanRow` runs the column loop. `RecordHour` does the update
  for one profitable cell. The order of the steps is the source's.
- A profitable cell in a row past the 31st has no daily slot. The model
  ignores that write, and every other figure still counts the cell. In the
  source, the write goes past the end of the array.

## Model

| member | source | states |
|---|---|---|
| `DerivedCosts.CalculateDerivedValues` | dashboard.js:24-30 | the operating cost equals gasConsumption·3.6·gasPrice − heatOutput·heatPrice; it is negative exactly when heat revenue exceeds gas cost, and zero exactly when they are equal (no clamping) |
| `DerivedCosts.DerivedIgnoresOtherFields` | dashboard.js:24-30 | the four figures depend only on gas price, gas consumption, heat output and heat price; base price, efficiency and expenses do not enter them |
| `DerivedCosts.OperatingCostNotClamped` | dashboard.js:28 | a plant whose heat sales exceed its gas bill gets a negative operating cost (−2 for the parameters given) |
| `Profitability.DailyList` | dashboard.js:79-82 | the daily list is as long as the daily array, and entry i is day i + 1 carrying slot i's profit |
| `Profitability.SummarizesAppend` | dashboard.js:54-67 | one profitable-hour update keeps the counter, running total, running peak and every daily slot in agreement with the records made so far |
| `Aggregator.RecordHour` | dashboard.js:55-67 | the new running figures are the old ones after one profitable hour, and the daily array changes only in the row's slot, by the hour's profit, or not at all for a row with no slot |
| `Aggregator.ScanRow` | dashboard.js:50-69 | the column loop appends exactly the records of the row's profitable cells, in column order, and keeps the running figures in agreement with the records |
| `Aggregator.ProcessGrid` | dashboard.js:41-86 | the nested scan with the in-place 31-slot daily array returns exactly the results record `Report` specifies |
| `ScanProperties.ScanShape` | dashboard.js:49-61 | the records of the whole table are in strict row-major order, each is a profitable cell's record, and their cell set is exactly the set of profitable cells |
| `ScanProperties.HoursCount` | dashboard.js:49-57 | records in strict scan order name distinct cells, so there are as many cells as records |
| `ScanProperties.PeakIsFirstMaximum` | dashboard.js:64-67 | with positive prices, the running peak of a non-empty record list is the price and cell of the first record that reaches the maximum price |
| `ScanProperties.ScanPeak` | dashboard.js:46-67 | the running peak over the table, stated on the table's cells: none exactly when no cell is profitable; otherwise the first profitable cell, in row-major order, with the maximum profitable price |
| `ScanProperties.ReportHourlyData` | dashboard.js:49-61 | the hourly list has profitable_hours entries in row-major order; each has its cell's price, which is over 5000, and profit price − basePrice − operatingCostHour; every profitable cell has its entry |
| `ScanProperties.ReportCount` | dashboard.js:49-55 | profitable_hours is the number of cells with row ≥ 1, 1 ≤ column < that row's length, and price over 5000 |
| `ScanProperties.ReportTotals` | dashboard.js:52-72 | total_revenue is the cell-by-cell sum of the profit of exactly the profitable cells; net_profit is total_revenue − expenses |
| `ScanProperties.ReportDaily` | dashboard.js:45-82 | the daily list has 31 entries; entry d is day d + 1 with the profit of the profitable cells of row d + 1 (0 when the table has no such row); no other row reaches it |
| `ScanProperties.ReportPeak` | dashboard.js:46-67 | peak_hour is empty exactly when no cell is profitable, and then peak_price is 0; otherwise peak_hour is a profitable cell with price peak_price, no profitable cell is dearer, and every profitable cell before it in row-major order is strictly cheaper |
| `ScanProperties.DailySumsToTotal` | dashboard.js:56-62 | when the table has at most 32 rows, the daily profits add up to total_revenue |
| `ScanProperties.ReportNoProfitableHours` | dashboard.js:42-72 | a table with no profitable cell, an empty one included, gives 0 hours, 0 revenue, net profit −expenses, an empty hourly list, all-zero daily slots and no peak |
| `ScanProperties.ScenarioOneProfitableHour` | dashboard.js:49-72 | the worked example: rows [_, 6000] and [_, 4000] with base price 4400 give one hour at (1, 1) with profit 1600, peak 6000 at (1, 1), day 1 = 1600, day 2 = 0, net profit 1600 |

## Left out

- Reading the file is not modelled: the `FileReader`, `XLSX.read`, the
  `Sheet2` lookup and `sheet_to_json`. These are foreign-library I/O, so
  the table comes in already parsed as `seq<seq<real>>`.
- React state and rendering are not modelled: `useState`, `setResults`,
  `setError`, `console.error`, the parameter defaults and all the JSX,
  including the first-24 chart slice and the form labels. These are user
  interface.
- JavaScript numbers are not modelled: IEEE-754 rounding, coercion of blank
  or non-numeric cells, and `NaN`. Prices are exact reals, and every cell is
  a number.
- The write `daily_profits[row-1]` for a row past the 31st is not
  modelled. In JavaScript it grows the array and stores `NaN`. The model
  drops that write and keeps 31 slots. All other figures are unaffected.
- `efficiency` is carried in `Parameters` but never read, as in the source.
- The exception path of the file handler is not modelled. The calculation
  itself cannot fail on a parsed numeric table.
- Running the calculation twice gives the same result. This holds because
  every member is a function or a deterministic method. No separate lemma
  states it.
