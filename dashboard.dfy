/**
 * The figures of the dashboard page (src/pages/Dashboard.tsx): the income of
 * the selected year, the cost per hour and per kilometre of each bus type,
 * the balance-sheet lines and ratios, and the break-even point. The page's
 * inputs are the lists the sheet API returns: vehicles, yearly incomes,
 * cost classifications and raw financial rows.
 */
module Dashboard {
  import opened Wrappers
  import opened Text
  import opened Numbers
  import opened Collections
  import opened Domain
  import Income

  // ---------------------------------------------------------------------
  // Income of the selected year
  // ---------------------------------------------------------------------

  /** The own, subcontracted and total income shown on the income card. */
  datatype IncomeSummary = IncomeSummary(total: real, own: real, subcontracted: real)

  /** The income of one vehicle row over every month it lists. */
  function RowTotal(v: VehicleIncome): real {
    SumValues(v.income)
  }

  /**
   * `yearIncome`: the record of the year (the first one, as `find` does),
   * its own-fleet rows and subcontracted months summed; no record gives zeros.
   */
  function YearIncome(data: seq<YearlyIncome>, year: int): (r: IncomeSummary)
    ensures r.total == r.own + r.subcontracted
    ensures Income.YearRecord(data, year).None? ==> r == IncomeSummary(0.0, 0.0, 0.0)
    ensures Income.YearRecord(data, year).Some? ==>
      var d := Income.YearRecord(data, year).value;
      r.own == SumBy(d.ownFleet, RowTotal) && r.subcontracted == SumValues(d.subcontracted)
  {
    match Income.YearRecord(data, year)
    case None => IncomeSummary(0.0, 0.0, 0.0)
    case Some(d) =>
      var own := SumBy(d.ownFleet, RowTotal);
      var sub := SumValues(d.subcontracted);
      IncomeSummary(own + sub, own, sub)
  }

  // ---------------------------------------------------------------------
  // Cost totals
  // ---------------------------------------------------------------------

  function Amount(c: Classification): real {
    c.amount
  }

  predicate IsFixed(c: Classification) {
    c.nature == Fijo
  }

  predicate IsVariable(c: Classification) {
    c.nature == Variable
  }

  /** `totalCosts`: every classified amount. */
  function TotalCosts(costs: seq<Classification>): real {
    SumBy(costs, Amount)
  }

  /** The amounts of the `FIJO` rows. */
  function FixedCosts(costs: seq<Classification>): real {
    SumBy(Filter(costs, IsFixed), Amount)
  }

  /** The amounts of the `VARIABLE` rows. */
  function VariableCosts(costs: seq<Classification>): real {
    SumBy(Filter(costs, IsVariable), Amount)
  }

  /** Every classification is fixed or variable, so the two totals add up to the cost card. */
  lemma TotalIsFixedPlusVariable(costs: seq<Classification>)
    ensures TotalCosts(costs) == FixedCosts(costs) + VariableCosts(costs)
  {
    SumByFilterSplit(costs, Amount, IsFixed, IsVariable);
  }

  // ---------------------------------------------------------------------
  // Cost per bus type
  // ---------------------------------------------------------------------

  datatype BusType = Micro | Normal | Grande

  /** The keys of `vehiclesByType`, in the order `Object.entries` lists them. */
  const BusTypes: seq<BusType> := [Micro, Normal, Grande]

  /** Yearly working hours assumed for one vehicle. */
  const HoursPerVehicleYear: nat := 1800

  /** One row of the bus-type table. */
  datatype BusTypeCost = BusTypeCost(name: string, costPerHour: real, costPerKm: real)

  /** The group `v.type || 'Normal'` names, or none when the type is another text. */
  function GroupOf(v: Vehicle): Option<BusType> {
    var t := if v.vehicleType == "" then "Normal" else v.vehicleType;
    if t == "Micro" then Some(Micro)
    else if t == "Normal" then Some(Normal)
    else if t == "Grande" then Some(Grande)
    else None
  }

  function InGroup(t: BusType): Vehicle -> bool {
    (v: Vehicle) => GroupOf(v) == Some(t)
  }

  predicate Ungrouped(v: Vehicle) {
    GroupOf(v).None?
  }

  /** `vehiclesByType[t]`: the vehicles of group `t`, in list order. */
  function Members(vehicles: seq<Vehicle>, t: BusType): seq<Vehicle> {
    Filter(vehicles, InGroup(t))
  }

  predicate IsTyped(v: Vehicle) {
    v.vehicleType != ""
  }

  /** `vehicles.filter(v => v.type).length || 1`. */
  function VehicleDivisor(vehicles: seq<Vehicle>): (d: nat)
    ensures d >= 1
    ensures |Filter(vehicles, IsTyped)| > 0 ==> d == |Filter(vehicles, IsTyped)|
  {
    var n := |Filter(vehicles, IsTyped)|;
    if n == 0 then 1 else n
  }

  function Label(t: BusType): string {
    match t
    case Micro => "MICROBÚS"
    case Grande => "AUTOCAR GRANDE"
    case Normal => "AUTOCAR NORMAL"
  }

  function Kms(year: int): Vehicle -> real {
    (v: Vehicle) => Get(v.annualKms, year)
  }

  /** The kilometres a group covered in the year; a vehicle without a figure adds 0. */
  function GroupKms(group: seq<Vehicle>, year: int): real {
    SumBy(group, Kms(year))
  }

  /** The group's share of the fixed and of the variable costs: its size over the divisor. */
  function GroupTotal(size: nat, divisor: nat, fixed: real, variable: real): real
    requires divisor > 0
  {
    var share := size as real / divisor as real;
    fixed * share + variable * share
  }

  /** The table row of a group of `size` vehicles that covered `kms` kilometres. */
  function GroupResult(t: BusType, size: nat, kms: real, divisor: nat, fixed: real, variable: real): (r: BusTypeCost)
    requires divisor > 0
    ensures r.name == Label(t)
    ensures size > 0 ==> r.costPerHour * (size * HoursPerVehicleYear) as real == GroupTotal(size, divisor, fixed, variable)
    ensures size == 0 ==> r.costPerHour == 0.0
    ensures kms > 0.0 ==> r.costPerKm * kms == GroupTotal(size, divisor, fixed, variable)
    ensures kms <= 0.0 ==> r.costPerKm == 0.0
  {
    var total := GroupTotal(size, divisor, fixed, variable);
    var hours := size * HoursPerVehicleYear;
    BusTypeCost(Label(t),
      if hours > 0 then total / hours as real else 0.0,
      if kms > 0.0 then total / kms else 0.0)
  }

  /** The row of group `t`, or nothing when the group is empty. */
  function TypeRow(vehicles: seq<Vehicle>, fixed: real, variable: real, year: int, t: BusType): seq<BusTypeCost> {
    var group := Members(vehicles, t);
    if |group| == 0 then []
    else [GroupResult(t, |group|, GroupKms(group, year), VehicleDivisor(vehicles), fixed, variable)]
  }

  /** The rows of the groups `ts`, in that order. */
  function TypeRows(vehicles: seq<Vehicle>, fixed: real, variable: real, year: int, ts: seq<BusType>): seq<BusTypeCost>
    decreases |ts|
  {
    if ts == [] then []
    else TypeRows(vehicles, fixed, variable, year, ts[..|ts| - 1]) + TypeRow(vehicles, fixed, variable, year, ts[|ts| - 1])
  }

  /** `costsByBusType` as a value. */
  function BusTypeCosts(vehicles: seq<Vehicle>, costs: seq<Classification>, year: int): seq<BusTypeCost> {
    TypeRows(vehicles, FixedCosts(costs), VariableCosts(costs), year, BusTypes)
  }

  /**
   * `costsByBusType`: the vehicles are pushed into their group, then each
   * non-empty group's kilometres are accumulated and its row is pushed.
   */
  method CostsByBusType(vehicles: seq<Vehicle>, costs: seq<Classification>, year: int) returns (results: seq<BusTypeCost>)
    ensures results == BusTypeCosts(vehicles, costs, year)
  {
    var micro, normal, grande := GroupByType(vehicles);
    var fixed := FixedCosts(costs);
    var variable := VariableCosts(costs);
    var divisor := VehicleDivisor(vehicles);
    results := [];
    for k := 0 to |BusTypes|
      invariant results == TypeRows(vehicles, fixed, variable, year, BusTypes[..k])
    {
      TypeRowsStep(vehicles, fixed, variable, year, BusTypes, k);
      var t := BusTypes[k];
      var group := if t == Micro then micro else if t == Normal then normal else grande;
      var row := GroupRow(vehicles, fixed, variable, year, t, group, divisor);
      results := results + row;
    }
    assert BusTypes[..|BusTypes|] == BusTypes;
  }

  lemma TypeRowsStep(vehicles: seq<Vehicle>, fixed: real, variable: real, year: int, ts: seq<BusType>, k: nat)
    requires k < |ts|
    ensures TypeRows(vehicles, fixed, variable, year, ts[..k + 1])
      == TypeRows(vehicles, fixed, variable, year, ts[..k]) + TypeRow(vehicles, fixed, variable, year, ts[k])
  {
    assert ts[..k + 1][..k] == ts[..k];
  }

  /** One group's part of the loop: its kilometres are accumulated and its row is pushed, if it has members. */
  method GroupRow(vehicles: seq<Vehicle>, fixed: real, variable: real, year: int, t: BusType, group: seq<Vehicle>, divisor: nat)
    returns (row: seq<BusTypeCost>)
    requires group == Members(vehicles, t) && divisor == VehicleDivisor(vehicles)
    ensures row == TypeRow(vehicles, fixed, variable, year, t)
  {
    row := [];
    if |group| > 0 {
      var totalKms := SumKms(group, year);
      row := [GroupResult(t, |group|, totalKms, divisor, fixed, variable)];
    }
  }

  /** The `vehicles.forEach` that pushes each vehicle into its group's list. */
  method GroupByType(vehicles: seq<Vehicle>) returns (micro: seq<Vehicle>, normal: seq<Vehicle>, grande: seq<Vehicle>)
    ensures micro == Members(vehicles, Micro)
    ensures normal == Members(vehicles, Normal)
    ensures grande == Members(vehicles, Grande)
  {
    micro, normal, grande := [], [], [];
    for i := 0 to |vehicles|
      invariant micro == Members(vehicles[..i], Micro)
      invariant normal == Members(vehicles[..i], Normal)
      invariant grande == Members(vehicles[..i], Grande)
    {
      var v := vehicles[i];
      MembersStep(vehicles, i, Micro);
      MembersStep(vehicles, i, Normal);
      MembersStep(vehicles, i, Grande);
      var g := GroupOf(v);
      if g == Some(Micro) {
        micro := micro + [v];
      } else if g == Some(Normal) {
        normal := normal + [v];
      } else if g == Some(Grande) {
        grande := grande + [v];
      }
    }
    assert vehicles[..|vehicles|] == vehicles;
  }

  lemma MembersStep(vehicles: seq<Vehicle>, i: nat, t: BusType)
    requires i < |vehicles|
    ensures Members(vehicles[..i + 1], t)
      == Members(vehicles[..i], t) + (if GroupOf(vehicles[i]) == Some(t) then [vehicles[i]] else [])
  {
    assert vehicles[..i + 1][..i] == vehicles[..i];
  }

  /** The `typeVehicles.forEach` that accumulates `totalKms`. */
  method SumKms(group: seq<Vehicle>, year: int) returns (totalKms: real)
    ensures totalKms == GroupKms(group, year)
  {
    totalKms := 0.0;
    for j := 0 to |group|
      invariant totalKms == GroupKms(group[..j], year)
    {
      assert group[..j + 1][..j] == group[..j];
      totalKms := totalKms + Get(group[j].annualKms, year);
    }
    assert group[..|group|] == group;
  }

  predicate HasMembers(vehicles: seq<Vehicle>, t: BusType) {
    |Members(vehicles, t)| > 0
  }

  function NonEmpty(vehicles: seq<Vehicle>): BusType -> bool {
    (t: BusType) => HasMembers(vehicles, t)
  }

  /** There is one row per non-empty group, in the order of `ts`. */
  lemma {:induction false} TypeRowsShape(vehicles: seq<Vehicle>, fixed: real, variable: real, year: int, ts: seq<BusType>)
    ensures var r := TypeRows(vehicles, fixed, variable, year, ts);
      var g := Filter(ts, NonEmpty(vehicles));
      |r| == |g| && forall i :: 0 <= i < |r| ==> r[i].name == Label(g[i])
    decreases |ts|
  {
    if ts != [] {
      var n := |ts| - 1;
      var p := NonEmpty(vehicles);
      TypeRowsShape(vehicles, fixed, variable, year, ts[..n]);
      var r0 := TypeRows(vehicles, fixed, variable, year, ts[..n]);
      var g0 := Filter(ts[..n], p);
      var row := TypeRow(vehicles, fixed, variable, year, ts[n]);
      assert TypeRows(vehicles, fixed, variable, year, ts) == r0 + row;
      if p(ts[n]) {
        assert Filter(ts, p) == g0 + [ts[n]];
        assert |row| == 1 && row[0].name == Label(ts[n]);
      } else {
        assert Filter(ts, p) == g0;
        assert row == [];
      }
    }
  }

  /** The table lists the non-empty groups among Micro, Normal, Grande, in that order. */
  lemma BusTypeCostsShape(vehicles: seq<Vehicle>, costs: seq<Classification>, year: int)
    ensures var r := BusTypeCosts(vehicles, costs, year);
      var g := Filter(BusTypes, NonEmpty(vehicles));
      |r| == |g| && forall i :: 0 <= i < |r| ==> r[i].name == Label(g[i])
  {
    TypeRowsShape(vehicles, FixedCosts(costs), VariableCosts(costs), year, BusTypes);
  }

  /** A vehicle without a type is counted in the Normal group. */
  lemma TypelessIsNormal(vehicles: seq<Vehicle>, i: nat)
    requires i < |vehicles| && vehicles[i].vehicleType == ""
    ensures vehicles[i] in Members(vehicles, Normal)
    ensures !IsTyped(vehicles[i])
  {
  }

  /** Every vehicle is in exactly one group or in none. */
  lemma {:induction false} GroupCounts(vehicles: seq<Vehicle>)
    ensures |Members(vehicles, Micro)| + |Members(vehicles, Normal)| + |Members(vehicles, Grande)|
      + |Filter(vehicles, Ungrouped)| == |vehicles|
    decreases |vehicles|
  {
    if vehicles != [] {
      GroupCounts(vehicles[..|vehicles| - 1]);
    }
  }

  /** The group totals of Micro, Normal and Grande. */
  function SumOfGroupTotals(vehicles: seq<Vehicle>, fixed: real, variable: real): real {
    ThreeGroupTotals(|Members(vehicles, Micro)|, |Members(vehicles, Normal)|, |Members(vehicles, Grande)|,
      VehicleDivisor(vehicles), fixed, variable)
  }

  /** The totals of three groups of sizes `a`, `b` and `c` over the same divisor. */
  function ThreeGroupTotals(a: nat, b: nat, c: nat, d: nat, fixed: real, variable: real): real
    requires d > 0
  {
    GroupTotal(a, d, fixed, variable) + GroupTotal(b, d, fixed, variable) + GroupTotal(c, d, fixed, variable)
  }

  lemma GroupTotalsAdd(a: nat, b: nat, c: nat, n: nat, d: nat, fixed: real, variable: real)
    requires d > 0 && a + b + c == n
    ensures ThreeGroupTotals(a, b, c, d, fixed, variable) == Proportion(fixed + variable, n, d)
  {
    var x, y, z, dd := a as real, b as real, c as real, d as real;
    assert x / dd + y / dd + z / dd == n as real / dd;
    calc {
      ThreeGroupTotals(a, b, c, d, fixed, variable);
      (fixed + variable) * (x / dd) + (fixed + variable) * (y / dd) + (fixed + variable) * (z / dd);
      (fixed + variable) * (x / dd + y / dd + z / dd);
    }
  }

  /** `total` scaled by `n / d`. */
  function Proportion(total: real, n: nat, d: nat): real
    requires d > 0
  {
    total * (n as real / d as real)
  }

  /**
   * When every vehicle belongs to a group, the groups share out the costs in
   * the proportion of the fleet size to the divisor. Typeless vehicles are in
   * the Normal group but not in the divisor, so they push the sum above the costs.
   */
  lemma GroupTotalsSum(vehicles: seq<Vehicle>, fixed: real, variable: real)
    requires forall i :: 0 <= i < |vehicles| ==> GroupOf(vehicles[i]).Some?
    ensures SumOfGroupTotals(vehicles, fixed, variable)
      == Proportion(fixed + variable, |vehicles|, VehicleDivisor(vehicles))
  {
    GroupSizes(vehicles);
    SumOfGroupTotalsOf(vehicles, fixed, variable, |vehicles|);
  }

  lemma SumOfGroupTotalsOf(vehicles: seq<Vehicle>, fixed: real, variable: real, n: nat)
    requires |Members(vehicles, Micro)| + |Members(vehicles, Normal)| + |Members(vehicles, Grande)| == n
    ensures SumOfGroupTotals(vehicles, fixed, variable) == Proportion(fixed + variable, n, VehicleDivisor(vehicles))
  {
    var a, b, c := |Members(vehicles, Micro)|, |Members(vehicles, Normal)|, |Members(vehicles, Grande)|;
    GroupTotalsAdd(a, b, c, n, VehicleDivisor(vehicles), fixed, variable);
  }

  /** When every vehicle belongs to a group, the group sizes add up to the fleet. */
  lemma GroupSizes(vehicles: seq<Vehicle>)
    requires forall i :: 0 <= i < |vehicles| ==> GroupOf(vehicles[i]).Some?
    ensures |Members(vehicles, Micro)| + |Members(vehicles, Normal)| + |Members(vehicles, Grande)| == |vehicles|
  {
    GroupCounts(vehicles);
    FilterNone(vehicles, Ungrouped);
  }

  /** With every vehicle typed Micro, Normal or Grande, the groups share out exactly the fixed and variable costs. */
  lemma TypedFleetConservation(vehicles: seq<Vehicle>, fixed: real, variable: real)
    requires |vehicles| > 0
    requires forall i :: 0 <= i < |vehicles| ==> vehicles[i].vehicleType in BusTypeNames
    ensures SumOfGroupTotals(vehicles, fixed, variable) == fixed + variable
  {
    AllGrouped(vehicles);
    FilterAll(vehicles, IsTyped);
    assert VehicleDivisor(vehicles) == |vehicles|;
    GroupTotalsSum(vehicles, fixed, variable);
    WholeProportion(fixed + variable, |vehicles|);
  }

  lemma WholeProportion(total: real, n: nat)
    requires n > 0
    ensures Proportion(total, n, n) == total
  {
    assert n as real / n as real == 1.0;
  }

  lemma AllGrouped(vehicles: seq<Vehicle>)
    requires forall i :: 0 <= i < |vehicles| ==> vehicles[i].vehicleType in BusTypeNames
    ensures forall i :: 0 <= i < |vehicles| ==> IsTyped(vehicles[i]) && GroupOf(vehicles[i]).Some?
  {
    forall i | 0 <= i < |vehicles|
      ensures IsTyped(vehicles[i]) && GroupOf(vehicles[i]).Some?
    {
      NamedTypeGrouped(vehicles[i]);
    }
  }

  /** The type names the groups are keyed by. */
  const BusTypeNames: set<string> := {"Micro", "Normal", "Grande"}

  lemma NamedTypeGrouped(v: Vehicle)
    requires v.vehicleType in BusTypeNames
    ensures IsTyped(v) && GroupOf(v).Some?
  {
  }

  /** One typed and one typeless Normal vehicle: the Normal group is charged twice the costs. */
  lemma TypelessOvercharge(typed: Vehicle, typeless: Vehicle, fixed: real, variable: real)
    requires typed.vehicleType == "Normal" && typeless.vehicleType == ""
    ensures SumOfGroupTotals([typed, typeless], fixed, variable) == 2.0 * (fixed + variable)
  {
    var vs := [typed, typeless];
    GroupTotalsSum(vs, fixed, variable);
    assert vs[..1] == [typed];
    assert Filter(vs, IsTyped) == [typed];
    assert VehicleDivisor(vs) == 1;
    assert Proportion(fixed + variable, 2, 1) == 2.0 * (fixed + variable);
  }

  function CostPerHour(c: BusTypeCost): real {
    c.costPerHour
  }

  /** `avgCostPerHour`: the mean cost per hour over the table rows, 0 with no rows. */
  function AvgCostPerHour(rows: seq<BusTypeCost>): (r: real)
    ensures |rows| == 0 ==> r == 0.0
    ensures |rows| > 0 ==> r * |rows| as real == SumBy(rows, CostPerHour)
  {
    if |rows| == 0 then 0.0 else SumBy(rows, CostPerHour) / |rows| as real
  }

  lemma {:induction false} SumByBounds(rows: seq<BusTypeCost>, lo: real, hi: real)
    requires forall i :: 0 <= i < |rows| ==> lo <= rows[i].costPerHour <= hi
    ensures lo * |rows| as real <= SumBy(rows, CostPerHour) <= hi * |rows| as real
    decreases |rows|
  {
    if rows != [] {
      SumByBounds(rows[..|rows| - 1], lo, hi);
    }
  }

  /** The mean lies between the smallest and the largest cost per hour. */
  lemma AvgWithinBounds(rows: seq<BusTypeCost>, lo: real, hi: real)
    requires |rows| > 0
    requires forall i :: 0 <= i < |rows| ==> lo <= rows[i].costPerHour <= hi
    ensures lo <= AvgCostPerHour(rows) <= hi
  {
    SumByBounds(rows, lo, hi);
    var n := |rows| as real;
    var a := AvgCostPerHour(rows);
    assert a * n >= lo * n && a * n <= hi * n;
  }

  // ---------------------------------------------------------------------
  // Balance sheet
  // ---------------------------------------------------------------------

  /**
   * A balance row of the year: `d.year === year` is a strict comparison, so a
   * year kept as text does not match.
   */
  predicate IsBalanceOf(row: SheetRow, year: int) {
    Field(row, "year") == Num(year as real) && Field(row, "documentType") == Text("Balance")
  }

  function BalanceRows(financial: seq<SheetRow>, year: int): seq<SheetRow> {
    Filter(financial, (row: SheetRow) => IsBalanceOf(row, year))
  }

  /** `d.concept?.toLowerCase().includes(term.toLowerCase())`; a row without a text concept does not match. */
  predicate Mentions(row: SheetRow, term: string) {
    match Field(row, "concept")
    case Text(s) => Contains(ToLower(s), ToLower(term))
    case _ => false
  }

  function MentionsTerm(term: string): SheetRow -> bool {
    (row: SheetRow) => Mentions(row, term)
  }

  /** Some row mentions the term. */
  function HasHit(data: seq<SheetRow>): string -> bool {
    (term: string) => Find(data, MentionsTerm(term)).Some?
  }

  /**
   * `getConcept`: the amount of the first row mentioning the first term that
   * any row mentions, `Number(amount) || 0`; 0 when no term is mentioned.
   */
  function ConceptAmount(data: seq<SheetRow>, terms: seq<string>): (r: real)
    ensures FindIndex(terms, HasHit(data)).None? ==> r == 0.0
    ensures FindIndex(terms, HasHit(data)).Some? ==>
      var term := terms[FindIndex(terms, HasHit(data)).value];
      r == NumberOrZero(Field(Find(data, MentionsTerm(term)).value, "amount"))
    decreases |terms|
  {
    if terms == [] then 0.0
    else
      match Find(data, MentionsTerm(terms[0]))
      case Some(d) => NumberOrZero(Field(d, "amount"))
      case None => ConceptAmount(data, terms[1..])
  }

  /** `getConcept` as written: a loop over the terms that returns at the first hit. */
  method GetConcept(data: seq<SheetRow>, terms: seq<string>) returns (r: real)
    ensures r == ConceptAmount(data, terms)
  {
    var i := 0;
    while i < |terms|
      invariant 0 <= i <= |terms|
      invariant ConceptAmount(data, terms) == ConceptAmount(data, terms[i..])
    {
      var found := Find(data, MentionsTerm(terms[i]));
      if found.Some? {
        return NumberOrZero(Field(found.value, "amount"));
      }
      assert terms[i..][1..] == terms[i + 1..];
      i := i + 1;
    }
    return 0.0;
  }

  const NonCurrentAssetTerms: seq<string> := ["Activo No Corriente", "A) ACTIVO NO CORRIENTE"]
  const CurrentAssetTerms: seq<string> := ["Activo Corriente", "B) ACTIVO CORRIENTE"]
  const EquityTerms: seq<string> := ["Patrimonio Neto", "A) PATRIMONIO NETO"]
  const NonCurrentLiabilityTerms: seq<string> := ["Pasivo No Corriente", "B) PASIVO NO CORRIENTE"]
  const CurrentLiabilityTerms: seq<string> := ["Pasivo Corriente", "C) PASIVO CORRIENTE"]

  /** The five balance figures of one year. */
  datatype Balance = Balance(
    nonCurrentAssets: real,
    currentAssets: real,
    equity: real,
    nonCurrentLiabilities: real,
    currentLiabilities: real)

  function BalanceOf(financial: seq<SheetRow>, year: int): Balance {
    var rows := BalanceRows(financial, year);
    Balance(
      ConceptAmount(rows, NonCurrentAssetTerms),
      ConceptAmount(rows, CurrentAssetTerms),
      ConceptAmount(rows, EquityTerms),
      ConceptAmount(rows, NonCurrentLiabilityTerms),
      ConceptAmount(rows, CurrentLiabilityTerms))
  }

  /** A year with no balance rows reads as all zeros. */
  lemma NoBalanceRows(financial: seq<SheetRow>, year: int)
    requires forall i :: 0 <= i < |financial| ==> !IsBalanceOf(financial[i], year)
    ensures BalanceOf(financial, year) == Balance(0.0, 0.0, 0.0, 0.0, 0.0)
  {
    FilterNone(financial, (row: SheetRow) => IsBalanceOf(row, year));
  }

  /** `activoTotal`. */
  function TotalAssets(b: Balance): real {
    b.nonCurrentAssets + b.currentAssets
  }

  /** `pasivoTotal`, used by the ratios: the liabilities without the equity. */
  function TotalLiabilities(b: Balance): real {
    b.nonCurrentLiabilities + b.currentLiabilities
  }

  /** `calcVariation`: the change in percent of the previous value's magnitude; 0 when there is no previous value. */
  function Variation(current: real, previous: real): (r: real)
    ensures previous == 0.0 ==> r == 0.0
    ensures previous != 0.0 ==> r * Abs(previous) == (current - previous) * 100.0
    ensures previous != 0.0 ==> (r > 0.0 <==> current > previous) && (r == 0.0 <==> current == previous)
  {
    if previous != 0.0 then (current - previous) / Abs(previous) * 100.0 else 0.0
  }

  /** The working capital and the three ratios of a year. */
  datatype Ratios = Ratios(workingCapital: real, liquidity: real, solvency: real, leverage: real)

  /** `den !== 0 ? num / den : 0`. */
  function Quotient(num: real, den: real): (r: real)
    ensures den == 0.0 ==> r == 0.0
    ensures den != 0.0 ==> r * den == num
  {
    if den != 0.0 then num / den else 0.0
  }

  /** `ratios`: working capital, liquidity, solvency and leverage, each 0 when its denominator is 0. */
  function RatiosOf(b: Balance): (r: Ratios)
    ensures r.workingCapital == b.currentAssets - b.currentLiabilities
    ensures b.currentLiabilities == 0.0 ==> r.liquidity == 0.0
    ensures b.currentLiabilities != 0.0 ==> r.liquidity * b.currentLiabilities == b.currentAssets
    ensures TotalLiabilities(b) == 0.0 ==> r.solvency == 0.0
    ensures TotalLiabilities(b) != 0.0 ==> r.solvency * TotalLiabilities(b) == TotalAssets(b)
    ensures b.equity == 0.0 ==> r.leverage == 0.0
    ensures b.equity != 0.0 ==> r.leverage * b.equity == TotalLiabilities(b)
  {
    Ratios(
      b.currentAssets - b.currentLiabilities,
      Quotient(b.currentAssets, b.currentLiabilities),
      Quotient(TotalAssets(b), TotalLiabilities(b)),
      Quotient(TotalLiabilities(b), b.equity))
  }

  /** Current assets below current liabilities: negative working capital and liquidity below 1. */
  lemma LiquidityAgreesWithWorkingCapital(b: Balance)
    requires b.currentLiabilities > 0.0
    ensures RatiosOf(b).workingCapital < 0.0 <==> RatiosOf(b).liquidity < 1.0
  {
    var r := RatiosOf(b);
    assert r.liquidity * b.currentLiabilities == b.currentAssets;
    if r.liquidity < 1.0 {
      assert r.liquidity * b.currentLiabilities < 1.0 * b.currentLiabilities;
    } else {
      assert r.liquidity * b.currentLiabilities >= 1.0 * b.currentLiabilities;
    }
  }

  // ---------------------------------------------------------------------
  // Break-even
  // ---------------------------------------------------------------------

  /** The break-even card. */
  datatype BreakEvenAnalysis = BreakEvenAnalysis(
    breakEven: real, currentProfit: real, fixedCosts: real, variableCosts: real, sales: real)

  /** `sales !== 0 ? (sales - variable) / sales : 0`. */
  function ContributionRatio(sales: real, variable: real): (r: real)
    ensures sales == 0.0 ==> r == 0.0
    ensures sales != 0.0 ==> r * sales == sales - variable
  {
    Quotient(sales - variable, sales)
  }

  /** `ratio !== 0 ? fixed / ratio : 0`: a negative ratio passes through. */
  function BreakEvenPoint(fixed: real, ratio: real): (r: real)
    ensures ratio == 0.0 ==> r == 0.0
    ensures ratio != 0.0 ==> r * ratio == fixed
  {
    Quotient(fixed, ratio)
  }

  /** `breakEvenAnalysis` over the classified costs and the income of the year. */
  function BreakEvenOf(costs: seq<Classification>, income: IncomeSummary): (r: BreakEvenAnalysis)
    ensures r.sales == income.total
    ensures r.fixedCosts == FixedCosts(costs) && r.variableCosts == VariableCosts(costs)
    ensures r.currentProfit == r.sales - r.fixedCosts - r.variableCosts
    ensures r.breakEven == BreakEvenPoint(r.fixedCosts, ContributionRatio(r.sales, r.variableCosts))
  {
    var fixed := FixedCosts(costs);
    var variable := VariableCosts(costs);
    var sales := income.total;
    BreakEvenAnalysis(BreakEvenPoint(fixed, ContributionRatio(sales, variable)), sales - fixed - variable, fixed, variable, sales)
  }

  /**
   * With variable costs proportional to sales, selling the break-even amount
   * leaves no profit: its contribution margin covers exactly the fixed costs.
   */
  lemma BreakEvenCoversFixed(sales: real, fixed: real, variable: real)
    requires sales != 0.0 && variable != sales
    ensures var b := BreakEvenPoint(fixed, ContributionRatio(sales, variable));
      b - b * (variable / sales) - fixed == 0.0
  {
    var ratio := ContributionRatio(sales, variable);
    assert ratio * sales == sales - variable;
    assert ratio != 0.0;
    assert ratio == (sales - variable) / sales;
    assert sales / sales == 1.0;
    assert (sales - variable) / sales == sales / sales - variable / sales;
    var b := BreakEvenPoint(fixed, ratio);
    assert b * ratio == fixed;
    assert b - b * (variable / sales) == b * ratio;
  }

  /** Variable costs above positive sales give a negative ratio, and the break-even point comes out negative. */
  lemma NegativeBreakEven(sales: real, fixed: real, variable: real)
    requires sales > 0.0 && variable > sales && fixed > 0.0
    ensures BreakEvenPoint(fixed, ContributionRatio(sales, variable)) < 0.0
  {
    var ratio := ContributionRatio(sales, variable);
    assert ratio * sales == sales - variable;
    assert ratio < 0.0;
    var b := BreakEvenPoint(fixed, ratio);
    assert b * ratio == fixed;
  }
}
