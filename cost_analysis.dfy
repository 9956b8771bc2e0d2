/**
 * The cost analysis page (src/pages/CostAnalysis.tsx): P&L account rows
 * split into incomes and costs, costs and incomes per year, and the
 * per-vehicle allocation of the year's cost pools with profitability and
 * break-even, for the vehicle and for the company.
 */
module CostAnalysis {
  import opened Wrappers
  import opened Text
  import opened Numbers
  import opened Collections
  import opened Domain
  import opened Dates
  import opened Ledger
  import opened Activity
  import opened Allocation
  import opened Income

  // ---------------------------------------------------------------------
  // Incomes and costs of the P&L

  /** A P&L row that is a real account (`isAccountCode` on its concept). */
  predicate IsPyGAccount(row: SheetRow) {
    IsPyG(row) && IsAccountCode(Field(row, "concept"))
  }

  /** The concept text of a row. */
  function ConceptOf(row: SheetRow): string {
    var c := Field(row, "concept");
    if c.Text? then c.s else ""
  }

  /** `Number(item.amount) || 0`. */
  function RawAmount(row: SheetRow): real {
    NumberOrZero(Field(row, "amount"))
  }

  /** An income: the concept starts with 7 and the amount is positive. */
  predicate IsIncomeRow(row: SheetRow) {
    StartsWith(ConceptOf(row), "7") && RawAmount(row) > 0.0
  }

  /** A cost: not an income, and the amount is negative. */
  predicate IsCostRow(row: SheetRow) {
    !IsIncomeRow(row) && RawAmount(row) < 0.0
  }

  /** The record built for every account row, before it is filed as income or cost. */
  function RecordOf(row: SheetRow, cs: seq<Classification>): (r: Cost)
    ensures r.amount >= 0.0 && (r.amount == RawAmount(row) || r.amount == -RawAmount(row))
    ensures r.year == RowYear(row) && r.concept == ConceptOf(row)
  {
    Classify(RowYear(row), NumberOrZero(Field(row, "month")), ConceptOf(row), Abs(RawAmount(row)),
             FindClassificationCA(cs, ConceptOf(row)))
  }

  /** The records of the cost rows, in order. */
  function CostRecords(pyg: seq<SheetRow>, cs: seq<Classification>): (r: seq<Cost>)
    ensures |r| <= |pyg|
    ensures forall i :: 0 <= i < |r| ==> r[i].amount >= 0.0
    decreases |pyg|
  {
    if pyg == [] then []
    else
      var last := pyg[|pyg| - 1];
      CostRecords(pyg[..|pyg| - 1], cs) + (if IsCostRow(last) then [RecordOf(last, cs)] else [])
  }

  /** The records of the income rows, in order. */
  function IncomeRecords(pyg: seq<SheetRow>, cs: seq<Classification>): (r: seq<Cost>)
    ensures |r| <= |pyg|
    ensures forall i :: 0 <= i < |r| ==> r[i].amount >= 0.0
    decreases |pyg|
  {
    if pyg == [] then []
    else
      var last := pyg[|pyg| - 1];
      IncomeRecords(pyg[..|pyg| - 1], cs) + (if IsIncomeRow(last) then [RecordOf(last, cs)] else [])
  }

  /** Rows that are neither: a zero amount, or a positive amount on a concept not starting with 7. */
  predicate IsNeitherRow(row: SheetRow) {
    !IsIncomeRow(row) && !IsCostRow(row)
  }

  /** The partition of the account rows into `costs` and `incomes`, one row at a time. */
  method Partition(financial: seq<SheetRow>, cs: seq<Classification>) returns (costs: seq<Cost>, incomes: seq<Cost>)
    ensures costs == CostRecords(Filter(financial, IsPyGAccount), cs)
    ensures incomes == IncomeRecords(Filter(financial, IsPyGAccount), cs)
  {
    var pyg := Filter(financial, IsPyGAccount);
    costs, incomes := [], [];
    for i := 0 to |pyg|
      invariant costs == CostRecords(pyg[..i], cs)
      invariant incomes == IncomeRecords(pyg[..i], cs)
    {
      PartitionStep(pyg, i, cs);
      var item := pyg[i];
      var rec := RecordOf(item, cs);
      if IsIncomeRow(item) {
        incomes := incomes + [rec];
      } else if RawAmount(item) < 0.0 {
        costs := costs + [rec];
      }
    }
    assert pyg[..|pyg|] == pyg;
  }

  /** One more row files its record as an income, as a cost, or not at all. */
  lemma PartitionStep(pyg: seq<SheetRow>, i: nat, cs: seq<Classification>)
    requires i < |pyg|
    ensures CostRecords(pyg[..i + 1], cs) == CostRecords(pyg[..i], cs) + (if IsCostRow(pyg[i]) then [RecordOf(pyg[i], cs)] else [])
    ensures IncomeRecords(pyg[..i + 1], cs) == IncomeRecords(pyg[..i], cs) + (if IsIncomeRow(pyg[i]) then [RecordOf(pyg[i], cs)] else [])
  {
    assert pyg[..i + 1][..i] == pyg[..i];
  }

  /** Every account row is filed exactly once: as an income, as a cost, or neither. */
  lemma {:induction false} PartitionIsExact(pyg: seq<SheetRow>, cs: seq<Classification>)
    ensures |CostRecords(pyg, cs)| + |IncomeRecords(pyg, cs)| + |Filter(pyg, IsNeitherRow)| == |pyg|
    decreases |pyg|
  {
    if pyg != [] {
      PartitionIsExact(pyg[..|pyg| - 1], cs);
    }
  }

  /** A row is never both an income and a cost. */
  lemma IncomeIsNotCost(row: SheetRow)
    ensures !(IsIncomeRow(row) && IsCostRow(row))
    ensures IsCostRow(row) <==> RawAmount(row) < 0.0
  {
  }

  // ---------------------------------------------------------------------
  // Per year

  /** The incomes of each year as the loop accumulates them, record by record. */
  function IncomeTotals(incomes: seq<Cost>): (m: map<int, real>)
    decreases |incomes|
  {
    if incomes == [] then map[]
    else
      var m := IncomeTotals(incomes[..|incomes| - 1]);
      var item := incomes[|incomes| - 1];
      if item.year.Some? then m[item.year.value := Get(m, item.year.value) + item.amount] else m
  }

  /** `incomesByYear`: `acc[year] = (acc[year] || 0) + amount` for every income. */
  method IncomesByYear(incomes: seq<Cost>) returns (result: map<int, real>)
    ensures result == IncomeTotals(incomes)
  {
    result := map[];
    for i := 0 to |incomes|
      invariant result == IncomeTotals(incomes[..i])
    {
      assert incomes[..i + 1][..i] == incomes[..i];
      var item := incomes[i];
      if item.year.Some? {
        var y := item.year.value;
        result := result[y := Get(result, y) + item.amount];
      }
    }
    assert incomes[..|incomes|] == incomes;
  }

  /** Each year's entry is the sum of that year's incomes (0 when it has none). */
  lemma {:induction false} IncomeTotalsSums(incomes: seq<Cost>)
    ensures forall y :: Get(IncomeTotals(incomes), y) == SumBy(OfYear(incomes, y), Amount)
    decreases |incomes|
  {
    if incomes != [] {
      IncomeTotalsSums(incomes[..|incomes| - 1]);
      forall y ensures Get(IncomeTotals(incomes), y) == SumBy(OfYear(incomes, y), Amount) {
        OfYearStep(incomes, y);
      }
    }
  }

  /** A year has an entry exactly when some income carries it. */
  lemma {:induction false} IncomeTotalsKeys(incomes: seq<Cost>, y: int)
    ensures y in IncomeTotals(incomes) <==> exists i :: 0 <= i < |incomes| && incomes[i].year == Some(y)
    decreases |incomes|
  {
    if incomes != [] {
      var n := |incomes| - 1;
      var init := incomes[..n];
      IncomeTotalsKeys(init, y);
      if y in IncomeTotals(init) {
        var i :| 0 <= i < |init| && init[i].year == Some(y);
        assert incomes[i] == init[i];
      } else if y in IncomeTotals(incomes) {
        assert incomes[n].year == Some(y);
      } else {
        forall i | 0 <= i < |incomes|
          ensures incomes[i].year != Some(y)
        {
          if i < n {
            assert init[i] == incomes[i];
          }
        }
      }
    }
  }

  /** Extending the records by one adds its amount to its own year only. */
  lemma OfYearStep(s: seq<Cost>, y: int)
    requires s != []
    ensures var last := s[|s| - 1];
            SumBy(OfYear(s, y), Amount)
            == SumBy(OfYear(s[..|s| - 1], y), Amount) + (if last.year == Some(y) then last.amount else 0.0)
  {
    var last := s[|s| - 1];
    var f := OfYear(s[..|s| - 1], y);
    if last.year == Some(y) {
      assert OfYear(s, y) == f + [last];
      assert (f + [last])[..|f|] == f;
    }
  }

  /** The figures of one year. */
  datatype YearCosts = YearCosts(
    directFixed: real,
    directVariable: real,
    indirectFixed: real,
    indirectVariable: real,
    totalDirect: real,
    totalIndirect: real,
    totalFixed: real,
    totalVariable: real,
    total: real,
    income: real,
    profit: real,
    costs: seq<Cost>)

  /** The entry of `costsByYear` for one year: every cost of the year, whatever its month. */
  function YearCostsOf(costs: seq<Cost>, incomeByYear: map<int, real>, year: int): (r: YearCosts)
    ensures r.costs == OfYear(costs, year)
    ensures r.income == Get(incomeByYear, year)
  {
    var yc := OfYear(costs, year);
    var df := Bucket(yc, Directo, Fijo);
    var dv := Bucket(yc, Directo, Variable);
    var inf := Bucket(yc, Indirecto, Fijo);
    var iv := Bucket(yc, Indirecto, Variable);
    var total := df + dv + inf + iv;
    var income := Get(incomeByYear, year);
    YearCosts(df, dv, inf, iv, df + dv, inf + iv, df + inf, dv + iv, total, income, income - total, yc)
  }

  /**
   * The year's total is the sum of all its costs; the direct/indirect and
   * the fixed/variable subtotals both add up to it, and the profit is the
   * income less it.
   */
  lemma YearTotals(costs: seq<Cost>, incomeByYear: map<int, real>, year: int)
    ensures var r := YearCostsOf(costs, incomeByYear, year);
            r.total == SumBy(r.costs, Amount)
            && r.totalDirect + r.totalIndirect == r.total
            && r.totalFixed + r.totalVariable == r.total
            && r.profit == r.income - r.total
  {
    BucketsPartition(OfYear(costs, year));
  }

  /** No annual/monthly deduplication: every further cost of the year adds its whole amount to the total. */
  lemma EveryMonthCounts(costs: seq<Cost>, c: Cost, incomeByYear: map<int, real>, year: int)
    requires c.year == Some(year)
    ensures YearCostsOf(costs + [c], incomeByYear, year).total
            == YearCostsOf(costs, incomeByYear, year).total + c.amount
  {
    assert (costs + [c])[..|costs|] == costs;
    OfYearStep(costs + [c], year);
    YearTotals(costs + [c], incomeByYear, year);
    YearTotals(costs, incomeByYear, year);
  }

  /** `costsByYear`: one entry per available year, filled in a loop. */
  method CostsByYear(costs: seq<Cost>, incomeByYear: map<int, real>, years: seq<int>) returns (result: map<int, YearCosts>)
    ensures forall y :: y in result <==> y in years
    ensures forall y :: y in result ==> result[y] == YearCostsOf(costs, incomeByYear, y)
  {
    result := map[];
    for i := 0 to |years|
      invariant forall y :: y in result <==> y in years[..i]
      invariant forall y :: y in result ==> result[y] == YearCostsOf(costs, incomeByYear, y)
    {
      assert years[..i + 1] == years[..i] + [years[i]];
      result := result[years[i] := YearCostsOf(costs, incomeByYear, years[i])];
    }
    assert years[..|years|] == years;
  }

  // ---------------------------------------------------------------------
  // Vehicles

  /** The amortisation of an account for a year: its value for the year when non-zero, else its annual amount. */
  function AccountYearValue(a: Account, year: int): real {
    if year in a.annualValues && a.annualValues[year] != 0.0 then a.annualValues[year] else a.annualAmount
  }

  /** An account about the fleet itself: its name mentions "flota", "vehiculo" or "autobus". */
  predicate IsFleetAccount(a: Account) {
    var n := ToLower(a.name);
    Contains(n, "flota") || Contains(n, "vehiculo") || Contains(n, "autobus")
  }

  /** `indirectAmortization`: the year's amortisation of the accounts that are not about the fleet. */
  function IndirectAmortization(accounts: seq<Account>, year: int): real {
    SumBy(Filter(accounts, (a: Account) => !IsFleetAccount(a)), (a: Account) => AccountYearValue(a, year))
  }

  /** A vehicle active in the year, with what it brings to the allocation. */
  datatype ActiveVehicle = ActiveVehicle(
    vehicle: Vehicle,
    monthsActive: int,
    coefTime: real,
    kms: real,
    income: real,
    directImputed: real,
    vehicleAmortization: real)

  /** The costs of the year whose distribution is this plate. */
  function DirectImputed(yc: YearCosts, plate: string): real {
    SumBy(Filter(yc.costs, (c: Cost) => c.distribution == plate), Amount)
  }

  /** A vehicle's entry in `activeVehicles`, or `None` when it is excluded from the year. */
  function ActiveOf(v: Vehicle, yearly: Option<YearlyIncome>, yc: YearCosts, year: int,
                    native: string -> Option<Date>): (r: Option<ActiveVehicle>)
    ensures r.None? <==> Excluded(Acquired(v, native), Sold(v, native), year)
    ensures r.Some? ==> r.value.vehicle == v && 1.0 / 12.0 <= r.value.coefTime <= 1.0
    ensures r.Some? ==> r.value.coefTime == CoefTime(Acquired(v, native), Sold(v, native), year)
    ensures r.Some? ==> r.value.income == VehicleIncomeTotal(yearly, v.licensePlate)
  {
    var acq, sale := Acquired(v, native), Sold(v, native);
    if Excluded(acq, sale, year) then None
    else
      var months := MonthsActive(acq, sale, year);
      var coef := months as real / 12.0;
      CoefTimeBounds(acq, sale, year);
      Some(ActiveVehicle(v, months, coef, Get(v.annualKms, year), VehicleIncomeTotal(yearly, v.licensePlate),
                         DirectImputed(yc, v.licensePlate), v.annualAmortization * coef))
  }

  /** `vehicles.map(…).filter(v => v !== null)`. */
  function ActiveVehicles(vs: seq<Vehicle>, yearly: Option<YearlyIncome>, yc: YearCosts, year: int,
                          native: string -> Option<Date>): (r: seq<ActiveVehicle>)
    ensures |r| <= |vs|
    ensures forall i :: 0 <= i < |r| ==> 1.0 / 12.0 <= r[i].coefTime <= 1.0
    decreases |vs|
  {
    if vs == [] then []
    else
      var a := ActiveOf(vs[|vs| - 1], yearly, yc, year, native);
      ActiveVehicles(vs[..|vs| - 1], yearly, yc, year, native) + (if a.Some? then [a.value] else [])
  }

  function Kms(a: ActiveVehicle): real {
    a.kms
  }

  function CoefTimeOf(a: ActiveVehicle): real {
    a.coefTime
  }

  /** What the page shows for each active vehicle. */
  datatype Metrics = Metrics(
    licensePlate: string,
    assignedNumber: int,
    vehicleType: string,
    monthsActive: int,
    coefTime: real,
    coefKm: real,
    kms: real,
    cdFijos: real,
    cdVariables: real,
    directImputed: real,
    ciFijos: real,
    ciVariables: real,
    vehicleAmortization: real,
    amortIndirecta: real,
    totalCosts: real,
    totalFixedCosts: real,
    totalVariableCosts: real,
    costPerKm: real,
    income: real,
    profit: real,
    breakeven: real)

  /**
   * One vehicle's allocation: fixed pools by time coefficient, variable
   * pools by kilometres, its own imputed costs and amortisation on top.
   */
  function MetricsOf(a: ActiveVehicle, yc: YearCosts, indirectAmortization: real, totalKms: real, totalCoefTime: real): (m: Metrics)
    ensures m.totalCosts == m.totalFixedCosts + m.totalVariableCosts
    ensures m.profit == m.income - m.totalCosts
    ensures m.kms > 0.0 ==> m.costPerKm * m.kms == m.totalCosts
    ensures m.kms <= 0.0 ==> m.costPerKm == 0.0
    ensures m.income <= 0.0 ==> m.breakeven == 0.0
    ensures m.breakeven == BreakEven(m.totalFixedCosts, ContributionRatio(m.income, m.totalVariableCosts))
    ensures m.cdFijos == Share(yc.directFixed, a.coefTime, totalCoefTime)
    ensures m.ciFijos == Share(yc.indirectFixed, a.coefTime, totalCoefTime)
    ensures m.amortIndirecta == Share(indirectAmortization, a.coefTime, totalCoefTime)
    ensures m.cdVariables == Share(yc.directVariable, a.kms, totalKms)
    ensures m.ciVariables == Share(yc.indirectVariable, a.kms, totalKms)
  {
    var coefKm := if totalKms > 0.0 then a.kms / totalKms else 0.0;
    var cdFijos := Share(yc.directFixed, a.coefTime, totalCoefTime);
    var cdVariables := yc.directVariable * coefKm;
    var ciFijos := Share(yc.indirectFixed, a.coefTime, totalCoefTime);
    var ciVariables := yc.indirectVariable * coefKm;
    var amortIndirecta := Share(indirectAmortization, a.coefTime, totalCoefTime);
    ShareByRatio(yc.directVariable, a.kms, totalKms);
    ShareByRatio(yc.indirectVariable, a.kms, totalKms);
    var totalCosts := cdFijos + cdVariables + a.directImputed + ciFijos + ciVariables + a.vehicleAmortization + amortIndirecta;
    var totalFixedCosts := cdFijos + a.directImputed + ciFijos + a.vehicleAmortization + amortIndirecta;
    var totalVariableCosts := cdVariables + ciVariables;
    var costPerKm := PerUnit(totalCosts, a.kms);
    var profit := a.income - totalCosts;
    var breakeven := BreakEven(totalFixedCosts, ContributionRatio(a.income, totalVariableCosts));
    Metrics(a.vehicle.licensePlate, a.vehicle.assignedNumber, a.vehicle.vehicleType, a.monthsActive, a.coefTime,
            coefKm, a.kms, cdFijos, cdVariables, a.directImputed, ciFijos, ciVariables, a.vehicleAmortization,
            amortIndirecta, totalCosts, totalFixedCosts, totalVariableCosts, costPerKm, a.income, profit, breakeven)
  }

  // Column accessors, summed over the vehicles for the totals row.
  function MKms(m: Metrics): real { m.kms }
  function MCdFijos(m: Metrics): real { m.cdFijos }
  function MCdVariables(m: Metrics): real { m.cdVariables }
  function MDirectImputed(m: Metrics): real { m.directImputed }
  function MCiFijos(m: Metrics): real { m.ciFijos }
  function MCiVariables(m: Metrics): real { m.ciVariables }
  function MVehicleAmortization(m: Metrics): real { m.vehicleAmortization }
  function MAmortIndirecta(m: Metrics): real { m.amortIndirecta }
  function MTotalCosts(m: Metrics): real { m.totalCosts }
  function MTotalFixedCosts(m: Metrics): real { m.totalFixedCosts }
  function MTotalVariableCosts(m: Metrics): real { m.totalVariableCosts }
  function MIncome(m: Metrics): real { m.income }
  function MProfit(m: Metrics): real { m.profit }

  /** The fleet totals row. */
  datatype Totals = Totals(
    kms: real,
    cdFijos: real,
    cdVariables: real,
    directImputed: real,
    ciFijos: real,
    ciVariables: real,
    vehicleAmortization: real,
    amortIndirecta: real,
    totalCosts: real,
    totalFixedCosts: real,
    totalVariableCosts: real,
    income: real,
    profit: real,
    costPerKm: real)

  /** Column sums over the vehicles; `costPerKm` is filled in afterwards from the sums. */
  function TotalsOf(ms: seq<Metrics>): (t: Totals)
    ensures t.kms > 0.0 ==> t.costPerKm * t.kms == t.totalCosts
    ensures t.kms <= 0.0 ==> t.costPerKm == 0.0
  {
    var kms := SumBy(ms, MKms);
    var totalCosts := SumBy(ms, MTotalCosts);
    Totals(kms,
           SumBy(ms, MCdFijos),
           SumBy(ms, MCdVariables),
           SumBy(ms, MDirectImputed),
           SumBy(ms, MCiFijos),
           SumBy(ms, MCiVariables),
           SumBy(ms, MVehicleAmortization),
           SumBy(ms, MAmortIndirecta),
           totalCosts,
           SumBy(ms, MTotalFixedCosts),
           SumBy(ms, MTotalVariableCosts),
           SumBy(ms, MIncome),
           SumBy(ms, MProfit),
           PerUnit(totalCosts, kms))
  }

  /** The company break-even: the same rule as a vehicle's, on the fleet totals. */
  function CompanyBreakeven(t: Totals): (r: real)
    ensures r == BreakEven(t.totalFixedCosts, ContributionRatio(t.income, t.totalVariableCosts))
    ensures t.income <= 0.0 ==> r == 0.0
  {
    BreakEven(t.totalFixedCosts, ContributionRatio(t.income, t.totalVariableCosts))
  }

  /** The result of the page: the vehicles, the totals (absent when no vehicle is active) and the company break-even. */
  datatype Analysis = Analysis(vehicles: seq<Metrics>, totals: Option<Totals>, companyBreakeven: real)

  function MetricsAll(actives: seq<ActiveVehicle>, yc: YearCosts, indirectAmortization: real): (ms: seq<Metrics>)
    ensures |ms| == |actives|
  {
    var totalKms := SumBy(actives, Kms);
    var totalCoefTime := SumBy(actives, CoefTimeOf);
    MapSeq(actives, (a: ActiveVehicle) => MetricsOf(a, yc, indirectAmortization, totalKms, totalCoefTime))
  }

  /**
   * `vehicleAnalysis`: `None` without vehicles or without costs for the
   * selected year; otherwise the allocation over the active vehicles.
   */
  function VehicleAnalysis(vehicles: seq<Vehicle>, incomeData: seq<YearlyIncome>, costsByYear: map<int, YearCosts>,
                           accounts: seq<Account>, year: int, native: string -> Option<Date>): (r: Option<Analysis>)
    ensures r.None? <==> |vehicles| == 0 || year !in costsByYear || costsByYear[year].total == 0.0
    ensures r.Some? && r.value.totals.Some? ==> r.value.companyBreakeven == CompanyBreakeven(r.value.totals.value)
  {
    if |vehicles| == 0 then None
    else if year !in costsByYear || costsByYear[year].total == 0.0 then None
    else
      var yc := costsByYear[year];
      var yearly := YearRecord(incomeData, year);
      var ia := IndirectAmortization(accounts, year);
      var actives := ActiveVehicles(vehicles, yearly, yc, year, native);
      if |actives| == 0 then Some(Analysis([], None, 0.0))
      else
        var ms := MetricsAll(actives, yc, ia);
        var t := TotalsOf(ms);
        Some(Analysis(ms, Some(t), CompanyBreakeven(t)))
  }

  // ---------------------------------------------------------------------
  // Conservation and double counting

  /** The total time coefficient of a non-empty list of active vehicles is positive. */
  lemma {:induction false} CoefTimePositive(actives: seq<ActiveVehicle>)
    requires |actives| > 0
    requires forall i :: 0 <= i < |actives| ==> actives[i].coefTime >= 1.0 / 12.0
    ensures SumBy(actives, CoefTimeOf) > 0.0
  {
    var init := actives[..|actives| - 1];
    SumByNonNegative(init, CoefTimeOf);
  }

  /**
   * Conservation of the fixed pools: the direct and indirect fixed costs
   * and the indirect amortisation are shared out completely over a
   * non-empty list of active vehicles, by time coefficient.
   */
  lemma FixedPoolsConserved(actives: seq<ActiveVehicle>, yc: YearCosts, ia: real)
    requires SumBy(actives, CoefTimeOf) > 0.0
    ensures SumBy(MetricsAll(actives, yc, ia), MCdFijos) == yc.directFixed
    ensures SumBy(MetricsAll(actives, yc, ia), MCiFijos) == yc.indirectFixed
    ensures SumBy(MetricsAll(actives, yc, ia), MAmortIndirecta) == ia
  {
    var totalKms := SumBy(actives, Kms);
    var totalCoefTime := SumBy(actives, CoefTimeOf);
    var f := (a: ActiveVehicle) => MetricsOf(a, yc, ia, totalKms, totalCoefTime);
    var cdF := (a: ActiveVehicle) => Share(yc.directFixed, CoefTimeOf(a), totalCoefTime);
    var ciF := (a: ActiveVehicle) => Share(yc.indirectFixed, CoefTimeOf(a), totalCoefTime);
    var amI := (a: ActiveVehicle) => Share(ia, CoefTimeOf(a), totalCoefTime);
    SumByMapSeq(actives, f, MCdFijos, cdF);
    SumByMapSeq(actives, f, MCiFijos, ciF);
    SumByMapSeq(actives, f, MAmortIndirecta, amI);
    Conservation(actives, CoefTimeOf, yc.directFixed, cdF);
    Conservation(actives, CoefTimeOf, yc.indirectFixed, ciF);
    Conservation(actives, CoefTimeOf, ia, amI);
  }

  /**
   * Conservation of the variable pools: when the active vehicles drove any
   * kilometres, the direct and indirect variable costs are shared out
   * completely, by kilometres.
   */
  lemma VariablePoolsConserved(actives: seq<ActiveVehicle>, yc: YearCosts, ia: real)
    requires SumBy(actives, Kms) > 0.0
    ensures SumBy(MetricsAll(actives, yc, ia), MCdVariables) == yc.directVariable
    ensures SumBy(MetricsAll(actives, yc, ia), MCiVariables) == yc.indirectVariable
  {
    var totalKms := SumBy(actives, Kms);
    var totalCoefTime := SumBy(actives, CoefTimeOf);
    var f := (a: ActiveVehicle) => MetricsOf(a, yc, ia, totalKms, totalCoefTime);
    var cdV := (a: ActiveVehicle) => Share(yc.directVariable, Kms(a), totalKms);
    var ciV := (a: ActiveVehicle) => Share(yc.indirectVariable, Kms(a), totalKms);
    SumByMapSeq(actives, f, MCdVariables, cdV);
    SumByMapSeq(actives, f, MCiVariables, ciV);
    Conservation(actives, Kms, yc.directVariable, cdV);
    Conservation(actives, Kms, yc.indirectVariable, ciV);
  }

  /**
   * Without kilometres the variable pools are not apportioned at all:
   * every vehicle's variable share is 0.
   */
  lemma VariablePoolsLost(actives: seq<ActiveVehicle>, yc: YearCosts, ia: real)
    requires SumBy(actives, Kms) <= 0.0
    ensures SumBy(MetricsAll(actives, yc, ia), MCdVariables) == 0.0
    ensures SumBy(MetricsAll(actives, yc, ia), MCiVariables) == 0.0
  {
    var totalKms := SumBy(actives, Kms);
    var totalCoefTime := SumBy(actives, CoefTimeOf);
    var f := (a: ActiveVehicle) => MetricsOf(a, yc, ia, totalKms, totalCoefTime);
    var cdV := (a: ActiveVehicle) => Share(yc.directVariable, Kms(a), totalKms);
    var ciV := (a: ActiveVehicle) => Share(yc.indirectVariable, Kms(a), totalKms);
    SumByMapSeq(actives, f, MCdVariables, cdV);
    SumByMapSeq(actives, f, MCiVariables, ciV);
    NothingApportioned(actives, Kms, yc.directVariable, cdV);
    NothingApportioned(actives, Kms, yc.indirectVariable, ciV);
  }

  /** The active vehicles of a year always have a positive total time coefficient. */
  lemma ActivesHaveTime(vs: seq<Vehicle>, yearly: Option<YearlyIncome>, yc: YearCosts, year: int,
                        native: string -> Option<Date>)
    requires |ActiveVehicles(vs, yearly, yc, year, native)| > 0
    ensures SumBy(ActiveVehicles(vs, yearly, yc, year, native), CoefTimeOf) > 0.0
  {
    CoefTimePositive(ActiveVehicles(vs, yearly, yc, year, native));
  }

  /**
   * On the page's own result: whenever there is a totals row, its fixed
   * cost columns and its indirect amortisation are exactly the year's
   * pools, and its variable columns are too once any kilometres were driven.
   */
  lemma AnalysisConservesPools(vehicles: seq<Vehicle>, incomeData: seq<YearlyIncome>, costsByYear: map<int, YearCosts>,
                               accounts: seq<Account>, year: int, native: string -> Option<Date>)
    requires VehicleAnalysis(vehicles, incomeData, costsByYear, accounts, year, native).Some?
    requires VehicleAnalysis(vehicles, incomeData, costsByYear, accounts, year, native).value.totals.Some?
    ensures year in costsByYear
    ensures VehicleAnalysis(vehicles, incomeData, costsByYear, accounts, year, native).value.totals.value.cdFijos
            == costsByYear[year].directFixed
    ensures VehicleAnalysis(vehicles, incomeData, costsByYear, accounts, year, native).value.totals.value.ciFijos
            == costsByYear[year].indirectFixed
    ensures VehicleAnalysis(vehicles, incomeData, costsByYear, accounts, year, native).value.totals.value.amortIndirecta
            == IndirectAmortization(accounts, year)
    ensures VehicleAnalysis(vehicles, incomeData, costsByYear, accounts, year, native).value.totals.value.kms > 0.0 ==>
            VehicleAnalysis(vehicles, incomeData, costsByYear, accounts, year, native).value.totals.value.cdVariables
            == costsByYear[year].directVariable
    ensures VehicleAnalysis(vehicles, incomeData, costsByYear, accounts, year, native).value.totals.value.kms > 0.0 ==>
            VehicleAnalysis(vehicles, incomeData, costsByYear, accounts, year, native).value.totals.value.ciVariables
            == costsByYear[year].indirectVariable
  {
    var yc := costsByYear[year];
    var yearly := YearRecord(incomeData, year);
    var ia := IndirectAmortization(accounts, year);
    var actives := ActiveVehicles(vehicles, yearly, yc, year, native);
    ActivesHaveTime(vehicles, yearly, yc, year, native);
    FixedPoolsConserved(actives, yc, ia);
    KmsColumn(actives, yc, ia);
    if SumBy(actives, Kms) > 0.0 {
      VariablePoolsConserved(actives, yc, ia);
    }
  }

  /** The kilometres column of the totals row is the total of the active vehicles' kilometres. */
  lemma KmsColumn(actives: seq<ActiveVehicle>, yc: YearCosts, ia: real)
    ensures SumBy(MetricsAll(actives, yc, ia), MKms) == SumBy(actives, Kms)
  {
    var totalKms := SumBy(actives, Kms);
    var totalCoefTime := SumBy(actives, CoefTimeOf);
    var f := (a: ActiveVehicle) => MetricsOf(a, yc, ia, totalKms, totalCoefTime);
    SumByMapSeq(actives, f, MKms, Kms);
  }

  /**
   * Double counting: with kilometres driven, the vehicles' total costs add
   * up to the year's whole cost, plus the indirect amortisation and the
   * vehicles' own amortisation, plus the imputed costs once more, because
   * a cost routed to a plate is both in its pool and in `directImputed`.
   */
  lemma DoubleCounting(actives: seq<ActiveVehicle>, yc: YearCosts, ia: real)
    requires SumBy(actives, CoefTimeOf) > 0.0
    requires SumBy(actives, Kms) > 0.0
    requires yc.total == yc.directFixed + yc.directVariable + yc.indirectFixed + yc.indirectVariable
    ensures TotalsOf(MetricsAll(actives, yc, ia)).totalCosts
            == yc.total + ia + TotalsOf(MetricsAll(actives, yc, ia)).vehicleAmortization
               + TotalsOf(MetricsAll(actives, yc, ia)).directImputed
  {
    FixedPoolsConserved(actives, yc, ia);
    VariablePoolsConserved(actives, yc, ia);
    TotalCostsByColumn(MetricsAll(actives, yc, ia));
  }

  /** A vehicle's total cost is the sum of its seven columns, so the totals row's is too. */
  lemma {:induction false} TotalCostsByColumn(ms: seq<Metrics>)
    requires forall i :: 0 <= i < |ms| ==> (ms[i].totalCosts == ms[i].cdFijos + ms[i].cdVariables + ms[i].directImputed
      + ms[i].ciFijos + ms[i].ciVariables + ms[i].vehicleAmortization + ms[i].amortIndirecta)
    ensures SumBy(ms, MTotalCosts) == SumBy(ms, MCdFijos) + SumBy(ms, MCdVariables) + SumBy(ms, MDirectImputed)
      + SumBy(ms, MCiFijos) + SumBy(ms, MCiVariables) + SumBy(ms, MVehicleAmortization) + SumBy(ms, MAmortIndirecta)
    decreases |ms|
  {
    if ms != [] {
      TotalCostsByColumn(ms[..|ms| - 1]);
    }
  }

  /** The imputed costs of a vehicle are the year's costs routed to its plate, which the pools also hold. */
  lemma ImputedAlsoPooled(yc: YearCosts, plate: string)
    requires forall i :: 0 <= i < |yc.costs| ==> yc.costs[i].amount >= 0.0
    ensures DirectImputed(yc, plate) <= SumBy(yc.costs, Amount)
  {
    var p := (c: Cost) => c.distribution == plate;
    SumByFilterSplit(yc.costs, Amount, p, (c: Cost) => !p(c));
    SumByNonNegative(Filter(yc.costs, (c: Cost) => !p(c)), Amount);
  }
}
