/** The profitability rule of the dashboard and the specification of its
    single row-major scan over the price table.

    The scan visits rows 1 .. |grid|-1 and, in each row r, columns
    1 .. |grid[r]|-1: row 0 and column 0 hold headers and the table may be
    ragged. The functions below describe, cell by cell, what the scan has
    produced after a given number of rows and columns; every summary the
    dashboard reports is then a fold over the list of hourly records. */
module Profitability {
  import opened DerivedCosts

  /** A cell is a profitable hour when its price is over this constant. */
  const Threshold: real := 5000.0

  /** Number of slots of the per-day profit array. */
  const DaySlots: nat := 31

  /** Prices by day (rows) and hour (columns), as handed over already
      parsed; row 0 and column 0 are headers. */
  type Grid = seq<seq<real>>

  /** The cell in row r, column c; it stands for the label "Day r Hour c". */
  type Position = (nat, nat)

  datatype Option<T> = None | Some(value: T)

  /** One entry of the hourly detail list. */
  datatype HourlyRecord = HourlyRecord(hour: Position, price: real, profit: real)

  /** One entry of the daily profit list; days count from 1. */
  datatype DailyProfit = DailyProfit(day: nat, profit: real)

  /** The running peak: its price and the label of the cell it came from
      (None while no cell has been profitable, the empty label). */
  datatype Peak = Peak(price: real, hour: Option<Position>)

  /** The results record handed to the presentation layer. */
  datatype Results = Results(
    profitableHours: nat,
    totalRevenue: real,
    netProfit: real,
    hourlyData: seq<HourlyRecord>,
    dailyProfits: seq<DailyProfit>,
    peakPrice: real,
    peakHour: Option<Position>,
    derived: DerivedFigures)

  predicate IsProfitable(price: real) {
    price > Threshold
  }

  /** What one hour at this price earns over the base price and the
      operating cost. */
  function HourlyProfit(price: real, basePrice: real, operatingCostHour: real): real {
    price - basePrice - operatingCostHour
  }

  /** The cell (r, c) is visited by the scan and is profitable. */
  predicate ProfitableCell(grid: Grid, r: nat, c: nat) {
    1 <= r < |grid| && 1 <= c < |grid[r]| && IsProfitable(grid[r][c])
  }

  /** All profitable cells of the table. */
  ghost function ProfitableCells(grid: Grid): set<Position> {
    set r: nat, c: nat | 1 <= r < |grid| && 1 <= c < |grid[r]| && IsProfitable(grid[r][c]) :: (r, c)
  }

  /** Strict row-major order on cells. */
  predicate Before(a: Position, b: Position) {
    a.0 < b.0 || (a.0 == b.0 && a.1 < b.1)
  }

  /** The cells the records were made for. */
  ghost function Hours(recs: seq<HourlyRecord>): set<Position> {
    set rec | rec in recs :: rec.hour
  }

  /** The records appear in strict row-major order (so no cell twice). */
  predicate InScanOrder(recs: seq<HourlyRecord>) {
    forall i, j :: 0 <= i < j < |recs| ==> Before(recs[i].hour, recs[j].hour)
  }

  /** The record is the one the scan makes for a profitable cell. */
  predicate RecordOfCell(grid: Grid, rec: HourlyRecord, basePrice: real, operatingCostHour: real) {
    ProfitableCell(grid, rec.hour.0, rec.hour.1)
    && rec.price == grid[rec.hour.0][rec.hour.1]
    && rec.profit == HourlyProfit(rec.price, basePrice, operatingCostHour)
  }

  // ---------------------------------------------------------------------
  // The scan, as a specification

  /** The records one cell contributes: one if it is profitable, none otherwise. */
  function CellRecords(price: real, r: nat, c: nat, basePrice: real, operatingCostHour: real): seq<HourlyRecord> {
    if IsProfitable(price) then [HourlyRecord((r, c), price, HourlyProfit(price, basePrice, operatingCostHour))]
    else []
  }

  /** The records of row r once columns 1 .. k-1 have been visited. */
  function RowRecords(row: seq<real>, r: nat, k: nat, basePrice: real, operatingCostHour: real): seq<HourlyRecord>
    requires k <= 1 || k <= |row|
  {
    if k <= 1 then []
    else RowRecords(row, r, k - 1, basePrice, operatingCostHour)
         + CellRecords(row[k - 1], r, k - 1, basePrice, operatingCostHour)
  }

  /** The records once rows 1 .. n-1 have been visited. */
  function GridRecords(grid: Grid, n: nat, basePrice: real, operatingCostHour: real): seq<HourlyRecord>
    requires n <= 1 || n <= |grid|
  {
    if n <= 1 then []
    else GridRecords(grid, n - 1, basePrice, operatingCostHour)
         + RowRecords(grid[n - 1], n - 1, |grid[n - 1]|, basePrice, operatingCostHour)
  }

  /** The records of the whole table: the hourly detail list. */
  function ScanRecords(grid: Grid, basePrice: real, operatingCostHour: real): seq<HourlyRecord> {
    GridRecords(grid, |grid|, basePrice, operatingCostHour)
  }

  /** Sum of the profits of the records. */
  function SumProfit(recs: seq<HourlyRecord>): real {
    if recs == [] then 0.0 else SumProfit(recs[..|recs| - 1]) + recs[|recs| - 1].profit
  }

  /** Sum of the profits of the records made in row `day`. */
  function DayTotal(recs: seq<HourlyRecord>, day: nat): real {
    if recs == [] then 0.0
    else DayTotal(recs[..|recs| - 1], day)
         + (if recs[|recs| - 1].hour.0 == day then recs[|recs| - 1].profit else 0.0)
  }

  /** One update of the running peak: a strictly higher price replaces it. */
  function PeakStep(peak: Peak, rec: HourlyRecord): Peak {
    if rec.price > peak.price then Peak(rec.price, Some(rec.hour)) else peak
  }

  /** The running peak after the records, starting from price 0 and no label. */
  function PeakOf(recs: seq<HourlyRecord>): Peak {
    if recs == [] then Peak(0.0, None) else PeakStep(PeakOf(recs[..|recs| - 1]), recs[|recs| - 1])
  }

  /** Direct sum, cell by cell, of the profit of the profitable cells among
      columns 1 .. k-1 of a row; unprofitable cells add nothing. */
  function RowProfitSum(row: seq<real>, k: nat, basePrice: real, operatingCostHour: real): real
    requires k <= 1 || k <= |row|
  {
    if k <= 1 then 0.0
    else RowProfitSum(row, k - 1, basePrice, operatingCostHour)
         + (if IsProfitable(row[k - 1]) then HourlyProfit(row[k - 1], basePrice, operatingCostHour) else 0.0)
  }

  /** Direct sum of the profit of the profitable cells of rows 1 .. n-1. */
  function GridProfitSum(grid: Grid, n: nat, basePrice: real, operatingCostHour: real): real
    requires n <= 1 || n <= |grid|
  {
    if n <= 1 then 0.0
    else GridProfitSum(grid, n - 1, basePrice, operatingCostHour)
         + RowProfitSum(grid[n - 1], |grid[n - 1]|, basePrice, operatingCostHour)
  }

  /** Profit of the profitable cells of row `day`; 0 for a row the table
      does not have. */
  function DayProfit(grid: Grid, day: nat, basePrice: real, operatingCostHour: real): real {
    if 1 <= day < |grid| then RowProfitSum(grid[day], |grid[day]|, basePrice, operatingCostHour) else 0.0
  }

  /** The daily list: slot i becomes the entry for day i + 1. */
  function DailyList(daily: seq<real>): (r: seq<DailyProfit>)
    ensures |r| == |daily|
    ensures forall i :: 0 <= i < |daily| ==> r[i] == DailyProfit(i + 1, daily[i])
  {
    if daily == [] then []
    else DailyList(daily[..|daily| - 1]) + [DailyProfit(|daily|, daily[|daily| - 1])]
  }

  /** The results record the dashboard computes from the parameters and
      the table. */
  function Report(p: Parameters, grid: Grid): Results {
    var derived := CalculateDerivedValues(p);
    var recs := ScanRecords(grid, p.basePrice, derived.operatingCostHour);
    var total := SumProfit(recs);
    var peak := PeakOf(recs);
    Results(|recs|, total, total - p.expenses, recs,
            DailyList(seq(DaySlots, d requires 0 <= d => DayTotal(recs, d + 1))),
            peak.price, peak.hour, derived)
  }

  /** The running figures of the scan, named as in the file handler. */
  datatype Tally = Tally(
    profitableHours: nat,
    totalRevenue: real,
    hourlyData: seq<HourlyRecord>,
    peakPrice: real,
    peakHour: Option<Position>)

  /** The running figures a profitable hour leaves behind. */
  function AddHour(t: Tally, rec: HourlyRecord): Tally {
    var peak := PeakStep(Peak(t.peakPrice, t.peakHour), rec);
    Tally(t.profitableHours + 1, t.totalRevenue + rec.profit, t.hourlyData + [rec], peak.price, peak.hour)
  }

  /** The daily array a profitable hour leaves behind: its row's slot
      grows by its profit; a row past the last slot changes nothing. */
  function AddToDay(daily: seq<real>, rec: HourlyRecord): seq<real> {
    if 1 <= rec.hour.0 <= |daily| then daily[rec.hour.0 - 1 := daily[rec.hour.0 - 1] + rec.profit] else daily
  }

  /** The running figures agree with the records made so far: the counter,
      the running total, the running peak and every slot of the daily
      array (slot d holds day d + 1). */
  predicate Summarizes(t: Tally, daily: seq<real>) {
    t.profitableHours == |t.hourlyData| && t.totalRevenue == SumProfit(t.hourlyData)
    && Peak(t.peakPrice, t.peakHour) == PeakOf(t.hourlyData)
    && |daily| == DaySlots
    && forall d :: 0 <= d < DaySlots ==> daily[d] == DayTotal(t.hourlyData, d + 1)
  }

  /** The update for one profitable hour keeps the running figures in
      agreement with the records. */
  lemma SummarizesAppend(t: Tally, daily: seq<real>, rec: HourlyRecord)
    requires Summarizes(t, daily)
    ensures Summarizes(AddHour(t, rec), AddToDay(daily, rec))
  {
    SumProfitAppend(t.hourlyData, rec);
    PeakOfAppend(t.hourlyData, rec);
    DayTotalAppend(t.hourlyData, rec);
  }

  /** Running figures in agreement with the records hold, in the daily
      array, slot by slot, the days' totals. */
  lemma SummarizedDaily(t: Tally, daily: seq<real>)
    requires Summarizes(t, daily)
    ensures daily == seq(DaySlots, d requires 0 <= d => DayTotal(t.hourlyData, d + 1))
  {
  }

  /** One more column of a row extends the row's records by that cell's. */
  lemma RowRecordsNext(data: seq<HourlyRecord>, row: seq<real>, r: nat, k: nat, basePrice: real, operatingCostHour: real)
    requires 1 <= k < |row|
    ensures data + RowRecords(row, r, k + 1, basePrice, operatingCostHour)
            == (data + RowRecords(row, r, k, basePrice, operatingCostHour)) + CellRecords(row[k], r, k, basePrice, operatingCostHour)
  {
  }

  // ---------------------------------------------------------------------
  // Folds over an appended list

  lemma SumProfitAppend(recs: seq<HourlyRecord>, rec: HourlyRecord)
    ensures SumProfit(recs + [rec]) == SumProfit(recs) + rec.profit
  {
    assert (recs + [rec])[..|recs|] == recs;
  }

  lemma DayTotalAppend(recs: seq<HourlyRecord>, rec: HourlyRecord)
    ensures forall day :: DayTotal(recs + [rec], day) == DayTotal(recs, day) + (if rec.hour.0 == day then rec.profit else 0.0)
  {
    assert (recs + [rec])[..|recs|] == recs;
  }

  lemma PeakOfAppend(recs: seq<HourlyRecord>, rec: HourlyRecord)
    ensures PeakOf(recs + [rec]) == PeakStep(PeakOf(recs), rec)
  {
    assert (recs + [rec])[..|recs|] == recs;
  }

  lemma {:induction false} SumProfitConcat(a: seq<HourlyRecord>, b: seq<HourlyRecord>)
    ensures SumProfit(a + b) == SumProfit(a) + SumProfit(b)
    decreases |b|
  {
    if b == [] {
      assert a + b == a;
    } else {
      var front, last := b[..|b| - 1], b[|b| - 1];
      assert b == front + [last];
      assert a + b == (a + front) + [last];
      SumProfitConcat(a, front);
      SumProfitAppend(a + front, last);
      SumProfitAppend(front, last);
    }
  }

  lemma {:induction false} DayTotalConcat(a: seq<HourlyRecord>, b: seq<HourlyRecord>, day: nat)
    ensures DayTotal(a + b, day) == DayTotal(a, day) + DayTotal(b, day)
    decreases |b|
  {
    if b == [] {
      assert a + b == a;
    } else {
      var front, last := b[..|b| - 1], b[|b| - 1];
      assert b == front + [last];
      assert a + b == (a + front) + [last];
      DayTotalConcat(a, front, day);
      DayTotalAppend(a + front, last);
      DayTotalAppend(front, last);
    }
  }
}
