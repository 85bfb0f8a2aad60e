/** The profitability aggregator: the nested scan of the file handler,
    with the spreadsheet decoding and the state updates of the page left
    to the caller. */
module Aggregator {
  import opened DerivedCosts
  import opened Profitability

  /** The update for one profitable cell (row, col): bump the counter, add
      the hour's profit to the running total and to the row's slot of the
      daily array (a row past the 31st has no slot), append the hourly
      record, and raise the peak on a strictly higher price. */
  method RecordHour(row: nat, col: nat, price: real, hourlyProfit: real, dailyProfits: array<real>, t0: Tally)
    returns (t: Tally)
    requires 1 <= row
    modifies dailyProfits
    ensures t == AddHour(t0, HourlyRecord((row, col), price, hourlyProfit))
    ensures dailyProfits[..] == AddToDay(old(dailyProfits[..]), HourlyRecord((row, col), price, hourlyProfit))
  {
    var profitableHours := t0.profitableHours + 1;
    var totalRevenue := t0.totalRevenue + hourlyProfit;
    var hourlyData := t0.hourlyData + [HourlyRecord((row, col), price, hourlyProfit)];
    if row - 1 < dailyProfits.Length {
      dailyProfits[row - 1] := dailyProfits[row - 1] + hourlyProfit;
    }
    var peakPrice, peakHour := t0.peakPrice, t0.peakHour;
    if price > peakPrice {
      peakPrice := price;
      peakHour := Some((row, col));
    }
    t := Tally(profitableHours, totalRevenue, hourlyData, peakPrice, peakHour);
  }

  /** The inner loop of the scan: visits columns 1 .. |grid[row]|-1 of one
      row and records each profitable cell. */
  method ScanRow(grid: Grid, row: nat, basePrice: real, operatingCostHour: real, dailyProfits: array<real>, t0: Tally)
    returns (t: Tally)
    requires 1 <= row < |grid|
    requires Summarizes(t0, dailyProfits[..])
    modifies dailyProfits
    ensures t.hourlyData == t0.hourlyData + RowRecords(grid[row], row, |grid[row]|, basePrice, operatingCostHour)
    ensures Summarizes(t, dailyProfits[..])
  {
    t := t0;
    var col: nat := 1;
    while col < |grid[row]|
      invariant 1 <= col && (col <= 1 || col <= |grid[row]|)
      invariant Summarizes(t, dailyProfits[..])
      invariant t.hourlyData == t0.hourlyData + RowRecords(grid[row], row, col, basePrice, operatingCostHour)
    {
      var price := grid[row][col];
      var hourlyProfit := price - basePrice - operatingCostHour;
      ghost var before := t.hourlyData;
      if price > Threshold {
        SummarizesAppend(t, dailyProfits[..], HourlyRecord((row, col), price, hourlyProfit));
        t := RecordHour(row, col, price, hourlyProfit, dailyProfits, t);
      }
      assert t.hourlyData == before + CellRecords(price, row, col, basePrice, operatingCostHour);
      RowRecordsNext(t0.hourlyData, grid[row], row, col, basePrice, operatingCostHour);
      col := col + 1;
    }
  }

  /** The whole computation of the file handler once the table is parsed:
      the derived figures, one row-major pass over rows 1 .. |grid|-1 with
      a 31-slot daily array updated in place, the net profit and the daily
      list. A profitable cell in a row past the 31st has no daily slot; its
      profit still enters every other figure. */
  method ProcessGrid(p: Parameters, grid: Grid) returns (res: Results)
    ensures res == Report(p, grid)
  {
    var derived := CalculateDerivedValues(p);
    var tally := Tally(0, 0.0, [], 0.0, None);
    var dailyProfits := new real[DaySlots](_ => 0.0);

    var row: nat := 1;
    while row < |grid|
      invariant 1 <= row && (row <= 1 || row <= |grid|)
      invariant Summarizes(tally, dailyProfits[..])
      invariant tally.hourlyData == GridRecords(grid, row, p.basePrice, derived.operatingCostHour)
    {
      tally := ScanRow(grid, row, p.basePrice, derived.operatingCostHour, dailyProfits, tally);
      row := row + 1;
    }

    SummarizedDaily(tally, dailyProfits[..]);
    var netProfit := tally.totalRevenue - p.expenses;
    res := Results(tally.profitableHours, tally.totalRevenue, netProfit, tally.hourlyData,
                   DailyList(dailyProfits[..]), tally.peakPrice, tally.peakHour, derived);
  }
}
