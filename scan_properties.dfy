/** What the results record of the dashboard says about the price table:
    each figure is a count, a sum or a maximum over the profitable cells,
    stated directly on the table and proved about the specification that
    the aggregator method is checked against. */
module ScanProperties {
  import opened DerivedCosts
  import opened Profitability

  // ---------------------------------------------------------------------
  // Shape of the record list

  /** Each record list of a row is in scan order, so is each of the table
      up to a row; gluing a list whose cells all come earlier keeps the order. */
  lemma ConcatInScanOrder(a: seq<HourlyRecord>, b: seq<HourlyRecord>)
    requires InScanOrder(a) && InScanOrder(b)
    requires forall x, y :: x in a && y in b ==> Before(x.hour, y.hour)
    ensures InScanOrder(a + b)
  {
    forall i, j | 0 <= i < j < |a + b|
      ensures Before((a + b)[i].hour, (a + b)[j].hour)
    {
      if j < |a| {
        assert (a + b)[i] == a[i] && (a + b)[j] == a[j];
      } else if i >= |a| {
        assert (a + b)[i] == b[i - |a|] && (a + b)[j] == b[j - |a|];
      } else {
        assert (a + b)[i] == a[i] && a[i] in a;
        assert (a + b)[j] == b[j - |a|] && b[j - |a|] in b;
      }
    }
  }

  /** The records of columns 1 .. k-1 of row r: each is the record of a
      profitable cell of that row left of column k, they are in column
      order, and every profitable cell there has one. */
  lemma {:induction false} RowRecordsShape(grid: Grid, r: nat, k: nat, basePrice: real, operatingCostHour: real)
    requires 1 <= r < |grid| && (k <= 1 || k <= |grid[r]|)
    ensures var recs := RowRecords(grid[r], r, k, basePrice, operatingCostHour);
      (forall rec :: rec in recs ==> RecordOfCell(grid, rec, basePrice, operatingCostHour) && rec.hour.0 == r && rec.hour.1 < k)
      && InScanOrder(recs)
      && (forall c: nat :: c < k && ProfitableCell(grid, r, c) ==> (r, c) in Hours(recs))
  {
    if k > 1 {
      RowRecordsShape(grid, r, k - 1, basePrice, operatingCostHour);
      var front := RowRecords(grid[r], r, k - 1, basePrice, operatingCostHour);
      var cell := CellRecords(grid[r][k - 1], r, k - 1, basePrice, operatingCostHour);
      ConcatInScanOrder(front, cell);
      assert RowRecords(grid[r], r, k, basePrice, operatingCostHour) == front + cell;
    }
  }

  /** Each record of rows 1 .. n-1 is the record of a profitable cell
      above row n. */
  lemma {:induction false} GridRecordsCells(grid: Grid, n: nat, basePrice: real, operatingCostHour: real)
    requires n <= 1 || n <= |grid|
    ensures forall rec :: rec in GridRecords(grid, n, basePrice, operatingCostHour) ==>
      RecordOfCell(grid, rec, basePrice, operatingCostHour) && rec.hour.0 < n
  {
    if n > 1 {
      GridRecordsCells(grid, n - 1, basePrice, operatingCostHour);
      RowRecordsShape(grid, n - 1, |grid[n - 1]|, basePrice, operatingCostHour);
    }
  }

  /** The records of rows 1 .. n-1 are in row-major order. */
  lemma {:induction false} GridRecordsOrder(grid: Grid, n: nat, basePrice: real, operatingCostHour: real)
    requires n <= 1 || n <= |grid|
    ensures InScanOrder(GridRecords(grid, n, basePrice, operatingCostHour))
  {
    if n > 1 {
      GridRecordsOrder(grid, n - 1, basePrice, operatingCostHour);
      GridRecordsCells(grid, n - 1, basePrice, operatingCostHour);
      RowRecordsShape(grid, n - 1, |grid[n - 1]|, basePrice, operatingCostHour);
      ConcatInScanOrder(GridRecords(grid, n - 1, basePrice, operatingCostHour),
                        RowRecords(grid[n - 1], n - 1, |grid[n - 1]|, basePrice, operatingCostHour));
    }
  }

  /** Every profitable cell above row n has its record among those of
      rows 1 .. n-1. */
  lemma {:induction false} GridRecordsComplete(grid: Grid, n: nat, basePrice: real, operatingCostHour: real)
    requires n <= 1 || n <= |grid|
    ensures forall r: nat, c: nat :: r < n && ProfitableCell(grid, r, c) ==>
      (r, c) in Hours(GridRecords(grid, n, basePrice, operatingCostHour))
  {
    if n > 1 {
      GridRecordsComplete(grid, n - 1, basePrice, operatingCostHour);
      RowRecordsShape(grid, n - 1, |grid[n - 1]|, basePrice, operatingCostHour);
      var front := GridRecords(grid, n - 1, basePrice, operatingCostHour);
      var last := RowRecords(grid[n - 1], n - 1, |grid[n - 1]|, basePrice, operatingCostHour);
      assert Hours(front + last) == Hours(front) + Hours(last);
    }
  }

  /** Records in strict scan order name distinct cells, so there are as
      many cells as records. */
  lemma {:induction false} HoursCount(recs: seq<HourlyRecord>)
    requires InScanOrder(recs)
    ensures |Hours(recs)| == |recs|
    decreases |recs|
  {
    if recs != [] {
      var front, last := recs[..|recs| - 1], recs[|recs| - 1];
      assert recs == front + [last];
      assert InScanOrder(front) by {
        forall i, j | 0 <= i < j < |front| ensures Before(front[i].hour, front[j].hour) {
          assert front[i] == recs[i] && front[j] == recs[j];
        }
      }
      HoursCount(front);
      assert last.hour !in Hours(front) by {
        forall rec | rec in front ensures rec.hour != last.hour {
          var i :| 0 <= i < |front| && front[i] == rec;
          assert recs[i] == rec && Before(recs[i].hour, recs[|recs| - 1].hour);
        }
      }
      assert Hours(recs) == Hours(front) + {last.hour};
    }
  }

  /** The hourly list of the whole table, as a set of cells, is exactly
      the set of profitable cells. */
  lemma ScanShape(grid: Grid, basePrice: real, operatingCostHour: real)
    ensures var recs := ScanRecords(grid, basePrice, operatingCostHour);
      (forall rec :: rec in recs ==> RecordOfCell(grid, rec, basePrice, operatingCostHour))
      && InScanOrder(recs)
      && Hours(recs) == ProfitableCells(grid)
  {
    var recs := ScanRecords(grid, basePrice, operatingCostHour);
    GridRecordsCells(grid, |grid|, basePrice, operatingCostHour);
    GridRecordsOrder(grid, |grid|, basePrice, operatingCostHour);
    GridRecordsComplete(grid, |grid|, basePrice, operatingCostHour);
    forall x | x in Hours(recs) ensures x in ProfitableCells(grid) {
      var rec :| rec in recs && rec.hour == x;
      assert ProfitableCell(grid, x.0, x.1);
    }
    forall x | x in ProfitableCells(grid) ensures x in Hours(recs) {
      assert ProfitableCell(grid, x.0, x.1);
    }
  }

  // ---------------------------------------------------------------------
  // Sums

  /** What one cell's records add to the two sums. */
  lemma CellSums(price: real, r: nat, c: nat, day: nat, basePrice: real, operatingCostHour: real)
    ensures var cell := CellRecords(price, r, c, basePrice, operatingCostHour);
      SumProfit(cell) == (if IsProfitable(price) then HourlyProfit(price, basePrice, operatingCostHour) else 0.0)
      && DayTotal(cell, day) == (if IsProfitable(price) && r == day then HourlyProfit(price, basePrice, operatingCostHour) else 0.0)
  {
    var cell := CellRecords(price, r, c, basePrice, operatingCostHour);
    if cell != [] {
      assert cell[..0] == [];
    }
  }

  lemma {:induction false} RowSum(row: seq<real>, r: nat, k: nat, basePrice: real, operatingCostHour: real)
    requires k <= 1 || k <= |row|
    ensures SumProfit(RowRecords(row, r, k, basePrice, operatingCostHour)) == RowProfitSum(row, k, basePrice, operatingCostHour)
  {
    if k > 1 {
      RowSum(row, r, k - 1, basePrice, operatingCostHour);
      var front := RowRecords(row, r, k - 1, basePrice, operatingCostHour);
      var cell := CellRecords(row[k - 1], r, k - 1, basePrice, operatingCostHour);
      SumProfitConcat(front, cell);
      CellSums(row[k - 1], r, k - 1, 0, basePrice, operatingCostHour);
    }
  }

  lemma {:induction false} RowDayTotal(row: seq<real>, r: nat, k: nat, day: nat, basePrice: real, operatingCostHour: real)
    requires k <= 1 || k <= |row|
    ensures DayTotal(RowRecords(row, r, k, basePrice, operatingCostHour), day)
            == if day == r then RowProfitSum(row, k, basePrice, operatingCostHour) else 0.0
  {
    if k > 1 {
      RowDayTotal(row, r, k - 1, day, basePrice, operatingCostHour);
      var front := RowRecords(row, r, k - 1, basePrice, operatingCostHour);
      var cell := CellRecords(row[k - 1], r, k - 1, basePrice, operatingCostHour);
      DayTotalConcat(front, cell, day);
      CellSums(row[k - 1], r, k - 1, day, basePrice, operatingCostHour);
    }
  }

  lemma {:induction false} GridSum(grid: Grid, n: nat, basePrice: real, operatingCostHour: real)
    requires n <= 1 || n <= |grid|
    ensures SumProfit(GridRecords(grid, n, basePrice, operatingCostHour)) == GridProfitSum(grid, n, basePrice, operatingCostHour)
  {
    if n > 1 {
      GridSum(grid, n - 1, basePrice, operatingCostHour);
      RowSum(grid[n - 1], n - 1, |grid[n - 1]|, basePrice, operatingCostHour);
      SumProfitConcat(GridRecords(grid, n - 1, basePrice, operatingCostHour),
                      RowRecords(grid[n - 1], n - 1, |grid[n - 1]|, basePrice, operatingCostHour));
    }
  }

  lemma {:induction false} GridDayTotal(grid: Grid, n: nat, day: nat, basePrice: real, operatingCostHour: real)
    requires n <= 1 || n <= |grid|
    ensures DayTotal(GridRecords(grid, n, basePrice, operatingCostHour), day)
            == if 1 <= day < n then RowProfitSum(grid[day], |grid[day]|, basePrice, operatingCostHour) else 0.0
  {
    if n > 1 {
      GridDayTotal(grid, n - 1, day, basePrice, operatingCostHour);
      RowDayTotal(grid[n - 1], n - 1, |grid[n - 1]|, day, basePrice, operatingCostHour);
      DayTotalConcat(GridRecords(grid, n - 1, basePrice, operatingCostHour),
                     RowRecords(grid[n - 1], n - 1, |grid[n - 1]|, basePrice, operatingCostHour), day);
    }
  }

  // ---------------------------------------------------------------------
  // The running peak

  /** With positive prices, the running peak of a non-empty list is the
      price and cell of record i, the first record that reaches the
      maximum price. */
  lemma {:induction false} PeakIsFirstMaximum(recs: seq<HourlyRecord>) returns (i: nat)
    requires recs != []
    requires forall j :: 0 <= j < |recs| ==> recs[j].price > 0.0
    ensures i < |recs| && PeakOf(recs) == Peak(recs[i].price, Some(recs[i].hour))
    ensures forall j :: 0 <= j < |recs| ==> recs[j].price <= recs[i].price
    ensures forall j :: 0 <= j < i ==> recs[j].price < recs[i].price
    decreases |recs|
  {
    var front, last := recs[..|recs| - 1], recs[|recs| - 1];
    assert PeakOf(recs) == PeakStep(PeakOf(front), last);
    if front == [] {
      i := 0;
    } else {
      assert forall j :: 0 <= j < |front| ==> front[j] == recs[j];
      var k := PeakIsFirstMaximum(front);
      i := if last.price > front[k].price then |recs| - 1 else k;
    }
  }

  /** In a list in strict scan order, a record whose cell comes before
      another's also comes before it in the list. */
  lemma ScanOrderIndex(recs: seq<HourlyRecord>, i: nat, j: nat)
    requires InScanOrder(recs) && i < |recs| && j < |recs|
    requires Before(recs[j].hour, recs[i].hour)
    ensures j < i
  {
  }

  /** The running peak over the whole table, stated on the table's cells. */
  lemma ScanPeak(grid: Grid, basePrice: real, operatingCostHour: real)
    ensures var peak := PeakOf(ScanRecords(grid, basePrice, operatingCostHour));
      (peak.hour == None <==> ProfitableCells(grid) == {})
      && (peak.hour == None ==> peak.price == 0.0)
      && (peak.hour.Some? ==>
            var (r, c) := peak.hour.value;
            ProfitableCell(grid, r, c) && peak.price == grid[r][c]
            && (forall r': nat, c': nat :: ProfitableCell(grid, r', c') ==> grid[r'][c'] <= peak.price)
            && (forall r': nat, c': nat :: ProfitableCell(grid, r', c') && Before((r', c'), (r, c))
                  ==> grid[r'][c'] < peak.price))
  {
    var recs := ScanRecords(grid, basePrice, operatingCostHour);
    ScanShape(grid, basePrice, operatingCostHour);
    if recs == [] {
      assert Hours(recs) == {};
    } else {
      assert forall j :: 0 <= j < |recs| ==> recs[j] in recs;
      var i := PeakIsFirstMaximum(recs);
      assert recs[i] in recs;
      assert recs[i].hour in Hours(recs);
      var (r, c) := recs[i].hour;
      forall r': nat, c': nat | ProfitableCell(grid, r', c')
        ensures grid[r'][c'] <= recs[i].price
        ensures Before((r', c'), (r, c)) ==> grid[r'][c'] < recs[i].price
      {
        assert (r', c') in ProfitableCells(grid);
        var rec :| rec in recs && rec.hour == (r', c');
        var j :| 0 <= j < |recs| && recs[j] == rec;
        if Before((r', c'), (r, c)) {
          ScanOrderIndex(recs, i, j);
        }
      }
    }
  }

  // ---------------------------------------------------------------------
  // The results record

  /** The hourly list holds one record per profitable hour, in row-major
      scan order; each carries its cell's price, which is over the
      threshold, and that hour's profit over the base price and the
      operating cost; and every profitable cell has its record. */
  lemma ReportHourlyData(p: Parameters, grid: Grid)
    ensures var res := Report(p, grid);
      |res.hourlyData| == res.profitableHours
      && InScanOrder(res.hourlyData)
      && (forall rec :: rec in res.hourlyData ==>
            RecordOfCell(grid, rec, p.basePrice, res.derived.operatingCostHour))
      && Hours(res.hourlyData) == ProfitableCells(grid)
  {
    ScanShape(grid, p.basePrice, CalculateDerivedValues(p).operatingCostHour);
  }

  /** The profitable-hours counter is the number of profitable cells:
      rows 1 on, columns 1 up to each row's own length, price over 5000. */
  lemma ReportCount(p: Parameters, grid: Grid)
    ensures Report(p, grid).profitableHours == |ProfitableCells(grid)|
  {
    var recs := ScanRecords(grid, p.basePrice, CalculateDerivedValues(p).operatingCostHour);
    ScanShape(grid, p.basePrice, CalculateDerivedValues(p).operatingCostHour);
    HoursCount(recs);
  }

  /** The total revenue is the sum, cell by cell, of the profit of the
      profitable cells (unprofitable cells add nothing), and the net profit
      is the total less the fixed expenses. */
  lemma ReportTotals(p: Parameters, grid: Grid)
    ensures var res := Report(p, grid);
      res.totalRevenue == GridProfitSum(grid, |grid|, p.basePrice, res.derived.operatingCostHour)
      && res.netProfit == res.totalRevenue - p.expenses
  {
    GridSum(grid, |grid|, p.basePrice, CalculateDerivedValues(p).operatingCostHour);
  }

  /** The daily list has 31 entries, day d + 1 in slot d, each holding the
      profit of the profitable cells of table row d + 1 (0 for a row the
      table does not have); no other row reaches a slot. */
  lemma ReportDaily(p: Parameters, grid: Grid)
    ensures var res := Report(p, grid);
      |res.dailyProfits| == DaySlots
      && forall d :: 0 <= d < DaySlots ==>
           res.dailyProfits[d] == DailyProfit(d + 1, DayProfit(grid, d + 1, p.basePrice, res.derived.operatingCostHour))
  {
    var o := CalculateDerivedValues(p).operatingCostHour;
    forall day: nat | 1 <= day <= DaySlots
      ensures DayTotal(ScanRecords(grid, p.basePrice, o), day) == DayProfit(grid, day, p.basePrice, o)
    {
      GridDayTotal(grid, |grid|, day, p.basePrice, o);
    }
  }

  /** The peak is 0 with the empty label exactly when no cell is
      profitable. Otherwise it is a profitable cell whose price no
      profitable cell exceeds, and every profitable cell before it in
      row-major order is strictly cheaper: ties keep the first. */
  lemma ReportPeak(p: Parameters, grid: Grid)
    ensures var res := Report(p, grid);
      (res.peakHour == None <==> ProfitableCells(grid) == {})
      && (res.peakHour == None ==> res.peakPrice == 0.0)
      && (res.peakHour.Some? ==>
            var (r, c) := res.peakHour.value;
            ProfitableCell(grid, r, c) && res.peakPrice == grid[r][c]
            && (forall r': nat, c': nat :: ProfitableCell(grid, r', c') ==> grid[r'][c'] <= res.peakPrice)
            && (forall r': nat, c': nat :: ProfitableCell(grid, r', c') && Before((r', c'), (r, c))
                  ==> grid[r'][c'] < res.peakPrice))
  {
    ScanPeak(grid, p.basePrice, CalculateDerivedValues(p).operatingCostHour);
  }

  /** Sum of the profits of a daily list. */
  function SumDaily(ds: seq<DailyProfit>): real {
    if ds == [] then 0.0 else SumDaily(ds[..|ds| - 1]) + ds[|ds| - 1].profit
  }

  /** The first m daily slots add up to the profit of table rows 1 .. m. */
  lemma {:induction false} DailyPrefixSum(grid: Grid, ds: seq<DailyProfit>, m: nat, basePrice: real, operatingCostHour: real)
    requires m <= |ds|
    requires forall d :: 0 <= d < |ds| ==> ds[d].profit == DayProfit(grid, d + 1, basePrice, operatingCostHour)
    ensures SumDaily(ds[..m]) == GridProfitSum(grid, if m + 1 <= |grid| then m + 1 else |grid|, basePrice, operatingCostHour)
  {
    if m > 0 {
      DailyPrefixSum(grid, ds, m - 1, basePrice, operatingCostHour);
      assert ds[..m][..m - 1] == ds[..m - 1];
    }
  }

  /** While the table has at most 32 rows (a header and 31 days), every
      profitable cell has a daily slot, and the daily list adds up to
      the total revenue. */
  lemma DailySumsToTotal(p: Parameters, grid: Grid)
    requires |grid| <= DaySlots + 1
    ensures SumDaily(Report(p, grid).dailyProfits) == Report(p, grid).totalRevenue
  {
    var res := Report(p, grid);
    ReportDaily(p, grid);
    ReportTotals(p, grid);
    DailyPrefixSum(grid, res.dailyProfits, DaySlots, p.basePrice, res.derived.operatingCostHour);
    assert res.dailyProfits[..DaySlots] == res.dailyProfits;
  }

  /** A table with no profitable cell, an empty table or a lone header row
      among them, reports no hours, no revenue, a net profit of minus the
      expenses, an empty hourly list, zero in every daily slot and no peak. */
  lemma ReportNoProfitableHours(p: Parameters, grid: Grid)
    requires forall r: nat, c: nat :: !ProfitableCell(grid, r, c)
    ensures var res := Report(p, grid);
      res.profitableHours == 0 && res.totalRevenue == 0.0 && res.netProfit == -p.expenses
      && res.hourlyData == [] && res.peakPrice == 0.0 && res.peakHour == None
      && forall d :: 0 <= d < |res.dailyProfits| ==> res.dailyProfits[d].profit == 0.0
  {
    var o := CalculateDerivedValues(p).operatingCostHour;
    var recs := ScanRecords(grid, p.basePrice, o);
    ScanShape(grid, p.basePrice, o);
    assert recs != [] ==> recs[0] in recs && ProfitableCell(grid, recs[0].hour.0, recs[0].hour.1);
    assert recs == [];
    forall d | 0 <= d < DaySlots ensures Report(p, grid).dailyProfits[d].profit == 0.0 {
      assert Report(p, grid).dailyProfits[d].profit == DayTotal(recs, d + 1);
    }
  }

  /** The worked example: one profitable hour at 6000 in day 1, an
      unprofitable 4000 in day 2, base price 4400, no operating cost and
      no expenses. */
  lemma ScenarioOneProfitableHour()
    ensures var res := Report(Parameters(4400.0, 0.0, 0.0, 0.0, 0.0, 0.0, 0.0),
                              [[0.0, 0.0], [0.0, 6000.0], [0.0, 4000.0]]);
      res.profitableHours == 1
      && res.hourlyData == [HourlyRecord((1, 1), 6000.0, 1600.0)]
      && res.peakPrice == 6000.0 && res.peakHour == Some((1, 1))
      && res.dailyProfits[0] == DailyProfit(1, 1600.0)
      && res.dailyProfits[1] == DailyProfit(2, 0.0)
      && res.totalRevenue == 1600.0 && res.netProfit == 1600.0
  {
    var grid: Grid := [[0.0, 0.0], [0.0, 6000.0], [0.0, 4000.0]];
    var recs := ScanRecords(grid, 4400.0, 0.0);
    assert RowRecords(grid[1], 1, 2, 4400.0, 0.0) == [HourlyRecord((1, 1), 6000.0, 1600.0)];
    assert RowRecords(grid[2], 2, 2, 4400.0, 0.0) == [];
    assert GridRecords(grid, 2, 4400.0, 0.0) == [HourlyRecord((1, 1), 6000.0, 1600.0)];
    assert GridRecords(grid, 3, 4400.0, 0.0) == GridRecords(grid, 2, 4400.0, 0.0) + RowRecords(grid[2], 2, 2, 4400.0, 0.0);
    assert recs == [HourlyRecord((1, 1), 6000.0, 1600.0)];
    SumProfitAppend([], recs[0]);
    PeakOfAppend([], recs[0]);
    DayTotalAppend([], recs[0]);
    assert [] + [recs[0]] == recs;
  }
}
