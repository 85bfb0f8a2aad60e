/** The derived-cost calculator of the power-plant dashboard: four
    operating figures computed from the parameter form. */
module DerivedCosts {

  /** Conversion factor from the native gas-consumption rate to a
      per-hour volume. */
  const GasHourFactor: real := 3.6

  /** The seven numbers of the parameter form. `efficiency` is collected
      but no formula reads it. */
  datatype Parameters = Parameters(
    basePrice: real,
    gasPrice: real,
    efficiency: real,
    heatOutput: real,
    heatPrice: real,
    gasConsumption: real,
    expenses: real)

  datatype DerivedFigures = DerivedFigures(
    gasConsumptionHour: real,
    gasCostHour: real,
    heatRevenue: real,
    operatingCostHour: real)

  /** The operating figures of one hour. The operating cost is the gas
      bill less the heat sold, and is not clamped at zero. */
  function CalculateDerivedValues(p: Parameters): (d: DerivedFigures)
    ensures d.operatingCostHour == p.gasConsumption * 3.6 * p.gasPrice - p.heatOutput * p.heatPrice
    ensures d.operatingCostHour < 0.0 <==> d.heatRevenue > d.gasCostHour
    ensures d.operatingCostHour == 0.0 <==> d.heatRevenue == d.gasCostHour
  {
    var gasConsumptionHour := p.gasConsumption * GasHourFactor;
    var gasCostHour := gasConsumptionHour * p.gasPrice;
    var heatRevenue := p.heatOutput * p.heatPrice;
    var operatingCostHour := gasCostHour - heatRevenue;
    DerivedFigures(gasConsumptionHour, gasCostHour, heatRevenue, operatingCostHour)
  }

  /** Only the gas and heat fields enter the formulas: the base price,
      the efficiency and the fixed expenses leave the figures unchanged. */
  lemma DerivedIgnoresOtherFields(p: Parameters, q: Parameters)
    requires p.gasPrice == q.gasPrice && p.heatOutput == q.heatOutput
    requires p.heatPrice == q.heatPrice && p.gasConsumption == q.gasConsumption
    ensures CalculateDerivedValues(p) == CalculateDerivedValues(q)
  {
  }

  /** A plant whose heat sales exceed its gas bill has a negative
      operating cost, which is kept as it is. */
  lemma OperatingCostNotClamped()
    ensures CalculateDerivedValues(Parameters(4400.0, 1.0, 0.0, 10.0, 2.0, 5.0, 0.0)).operatingCostHour == -2.0
  {
  }
}
