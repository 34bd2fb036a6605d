/** The arithmetic run when the form is submitted: the yearly labour cost of the manual
    process, the savings of automating it, and the payback period of the project. */
module Payback {

  datatype Option<T> = None | Some(value: T)

  /** The submitted numbers, after conversion from the form's text fields. */
  datatype Measures = Measures(
    avgHoursPerShift: real,
    avgPeopleWorking: real,
    shiftsPerDay: real,
    daysPerWeek: real,
    weeksPerYear: real,
    laborRate: real,
    efficiency: real,    // a percentage
    projectCost: real,
    maintenanceCost: real)

  /** The share of the manual labour cost that remains once the process is automated. */
  const ROBOTIC_LABOR_SHARE: real := 0.25

  predicate AllNonNegative(m: Measures) {
    m.avgHoursPerShift >= 0.0 && m.avgPeopleWorking >= 0.0 && m.shiftsPerDay >= 0.0 &&
    m.daysPerWeek >= 0.0 && m.weeksPerYear >= 0.0 && m.laborRate >= 0.0 && m.efficiency >= 0.0 &&
    m.projectCost >= 0.0 && m.maintenanceCost >= 0.0
  }

  /** Yearly cost of the manual process: the product of the seven labour factors,
      the efficiency taken as a fraction. Nobody working, or no working weeks, costs nothing;
      non-negative inputs never give a negative cost. */
  function CurrentCost(m: Measures): (r: real)
    ensures m.avgPeopleWorking == 0.0 || m.weeksPerYear == 0.0 ==> r == 0.0
    ensures AllNonNegative(m) ==> r >= 0.0
  {
    m.avgHoursPerShift * m.avgPeopleWorking * m.shiftsPerDay * m.daysPerWeek
      * m.weeksPerYear * m.laborRate * (m.efficiency / 100.0)
  }

  /** What the automated process still costs in labour: never more than the manual
      process when that cost is not negative. */
  function RoboticLaborCost(m: Measures): (r: real)
    ensures CurrentCost(m) >= 0.0 ==> 0.0 <= r <= CurrentCost(m)
  {
    CurrentCost(m) * ROBOTIC_LABOR_SHARE
  }

  /** What automation saves per year: three quarters of the manual cost. */
  function SavingsPerYear(m: Measures): (r: real)
    ensures r == 0.75 * CurrentCost(m)
    ensures r + RoboticLaborCost(m) == CurrentCost(m)
  {
    CurrentCost(m) - RoboticLaborCost(m)
  }

  /** The money the project costs: purchase plus maintenance, at least either part when
      neither is negative. */
  function TotalCost(m: Measures): (r: real)
    ensures m.projectCost >= 0.0 && m.maintenanceCost >= 0.0 ==>
      r >= m.projectCost && r >= m.maintenanceCost
  {
    m.projectCost + m.maintenanceCost
  }

  /** Years of savings needed to pay for the project; `None` where the division by the
      savings is by zero and the result is not a finite number. */
  function PaybackPeriod(m: Measures): (r: Option<real>)
    ensures r.None? <==> SavingsPerYear(m) == 0.0
    ensures r.Some? ==> r.value * SavingsPerYear(m) == TotalCost(m)
  {
    var savings := SavingsPerYear(m);
    if savings == 0.0 then None else Some(TotalCost(m) / savings)
  }

  /** Nothing is saved exactly when one of the labour factors is zero. */
  lemma SavingsZeroIff(m: Measures)
    ensures SavingsPerYear(m) == 0.0 <==>
      m.avgHoursPerShift == 0.0 || m.avgPeopleWorking == 0.0 || m.shiftsPerDay == 0.0 ||
      m.daysPerWeek == 0.0 || m.weeksPerYear == 0.0 || m.laborRate == 0.0 || m.efficiency == 0.0
  {
  }

  /** With nobody working, or no working weeks, there is no cost to save and no finite payback. */
  lemma NoWorkNoPayback(m: Measures)
    requires m.avgPeopleWorking == 0.0 || m.weeksPerYear == 0.0
    ensures CurrentCost(m) == 0.0 && SavingsPerYear(m) == 0.0
    ensures PaybackPeriod(m) == None
  {
  }

  /** Non-negative inputs give non-negative savings, positive ones when no labour factor is zero. */
  lemma SavingsSign(m: Measures)
    requires AllNonNegative(m)
    ensures SavingsPerYear(m) >= 0.0
    ensures m.avgHoursPerShift > 0.0 && m.avgPeopleWorking > 0.0 && m.shiftsPerDay > 0.0 &&
      m.daysPerWeek > 0.0 && m.weeksPerYear > 0.0 && m.laborRate > 0.0 && m.efficiency > 0.0
      ==> SavingsPerYear(m) > 0.0
  {
  }

  /** With non-negative costs and positive savings the payback period is non-negative. */
  lemma PaybackNonNegative(m: Measures)
    requires m.projectCost >= 0.0 && m.maintenanceCost >= 0.0
    requires SavingsPerYear(m) > 0.0
    ensures PaybackPeriod(m).Some? && PaybackPeriod(m).value >= 0.0
  {
  }

  /** For the same positive savings, a dearer project takes at least as long to pay back. */
  lemma PaybackMonotone(m: Measures, n: Measures)
    requires SavingsPerYear(m) == SavingsPerYear(n) > 0.0
    requires TotalCost(m) <= TotalCost(n)
    ensures PaybackPeriod(m).Some? && PaybackPeriod(n).Some?
    ensures PaybackPeriod(m).value <= PaybackPeriod(n).value
  {
  }

  /** Eight-hour shifts, ten people, one shift a day, five days a week, fifty weeks a year,
      20 an hour at 90% efficiency, and a project of 50000 plus 5000 maintenance. */
  const EXAMPLE: Measures := Measures(8.0, 10.0, 1.0, 5.0, 50.0, 20.0, 90.0, 50000.0, 5000.0)

  lemma WorkedExample()
    ensures CurrentCost(EXAMPLE) == 360000.0
    ensures RoboticLaborCost(EXAMPLE) == 90000.0
    ensures SavingsPerYear(EXAMPLE) == 270000.0
    ensures TotalCost(EXAMPLE) == 55000.0
    ensures PaybackPeriod(EXAMPLE) == Some(55000.0 / 270000.0)
  {
  }
}
