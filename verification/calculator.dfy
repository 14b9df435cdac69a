/** The profit engine: `calculate` and the constants it uses (App.tsx). */
module Calculator {
  import opened Types

  /** Maintenance and depreciation reserve, in currency per km. */
  const MaintenanceRate: real := 0.5

  /** The form's contents when the page first opens. */
  const InitialInputs := DriverInputs(0.0, 0.0, 0.0, 5.8, 10.0)

  /** Fuel cost: litres burned times price, with no fuel burned when the
      efficiency is zero or negative. Earnings and hours play no part. */
  function FuelCost(i: DriverInputs): (c: real)
    ensures i.efficiency > 0.0 ==> c * i.efficiency == i.kilometers * i.gasPrice
    ensures i.efficiency <= 0.0 ==> c == 0.0
  {
    var fuelConsumed := if i.efficiency > 0.0 then i.kilometers / i.efficiency else 0.0;
    fuelConsumed * i.gasPrice
  }

  /** Result of a shift, or `None` when no hours are entered. Negative hours
      still give a result, with the hourly wage forced to zero. */
  function Calculate(i: DriverInputs): (r: Option<CalculationResult>)
    ensures r.None? <==> i.hours == 0.0
    ensures r.Some? ==> Ledger(i, r.value)
  {
    if i.hours == 0.0 then None
    else
      var fuelCost := FuelCost(i);
      var maintenanceCost := i.kilometers * MaintenanceRate;
      var totalExpenses := fuelCost + maintenanceCost;
      var netProfit := i.earnings - totalExpenses;
      var hourlyWage := if i.hours > 0.0 then netProfit / i.hours else 0.0;
      Some(CalculationResult(fuelCost, maintenanceCost, totalExpenses, netProfit, hourlyWage))
  }

  /** The bookkeeping a result must satisfy for a shift with nonzero hours,
      written without division: each derived figure is pinned down by the
      equation it solves. */
  ghost predicate Ledger(i: DriverInputs, r: CalculationResult) {
    && (i.efficiency > 0.0 ==> r.fuelCost * i.efficiency == i.kilometers * i.gasPrice)
    && (i.efficiency <= 0.0 ==> r.fuelCost == 0.0)
    && r.maintenanceCost == i.kilometers * MaintenanceRate
    && r.totalExpenses == r.fuelCost + r.maintenanceCost
    && r.netProfit + r.totalExpenses == i.earnings
    && (i.hours > 0.0 ==> r.hourlyWage * i.hours == r.netProfit)
    && (i.hours < 0.0 ==> r.hourlyWage == 0.0)
  }

  /** The ledger has exactly one solution, and `Calculate` returns it: a
      record is the calculator's answer if and only if it balances. */
  lemma LedgerDeterminesResult(i: DriverInputs, r: CalculationResult)
    requires i.hours != 0.0
    ensures Calculate(i) == Some(r) <==> Ledger(i, r)
  {
    if Ledger(i, r) {
      var c := Calculate(i).value;
      if i.efficiency > 0.0 {
        DivisorCancels(r.fuelCost, c.fuelCost, i.efficiency);
      }
      if i.hours > 0.0 {
        DivisorCancels(r.hourlyWage, c.hourlyWage, i.hours);
      }
    }
  }

  /** Multiplying by a nonzero factor is injective. */
  lemma DivisorCancels(a: real, b: real, d: real)
    requires d != 0.0
    requires a * d == b * d
    ensures a == b
  {
  }

  /** With positive hours, the hourly wage is net profit spread over the
      hours, i.e. earnings minus fuel and maintenance, divided by hours. */
  lemma HourlyWageFormula(i: DriverInputs)
    requires i.hours > 0.0
    ensures Calculate(i).value.hourlyWage
         == (i.earnings - FuelCost(i) - i.kilometers * MaintenanceRate) / i.hours
  {
  }

  /** With positive hours the wage has the sign of the net profit, so a
      loss-making shift always shows a negative wage. */
  lemma WageSignFollowsProfit(i: DriverInputs)
    requires i.hours > 0.0
    ensures Calculate(i).value.hourlyWage < 0.0 <==> Calculate(i).value.netProfit < 0.0
    ensures Calculate(i).value.hourlyWage == 0.0 <==> Calculate(i).value.netProfit == 0.0
  {
  }

  /** Worked example: 200 earned over 100 km in 8 h, fuel at 5.80 and 10 km/l. */
  lemma ScenarioTypicalShift()
    ensures Calculate(DriverInputs(200.0, 100.0, 8.0, 5.8, 10.0))
         == Some(CalculationResult(58.0, 50.0, 108.0, 92.0, 11.5))
  {
  }

  /** Worked example: zero efficiency means no fuel cost; the loss is the
      maintenance reserve alone. */
  lemma ScenarioZeroEfficiency()
    ensures Calculate(DriverInputs(0.0, 50.0, 4.0, 5.0, 0.0))
         == Some(CalculationResult(0.0, 25.0, 25.0, -25.0, -6.25))
  {
  }

  /** The page opens with no hours entered, hence with no result. */
  lemma InitialInputsHaveNoResult()
    ensures Calculate(InitialInputs) == None
  {
  }
}
