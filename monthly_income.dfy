/**
 * The monthly income page (src/pages/MonthlyIncome.tsx): the years offered,
 * the cell edit that rewrites the year's record in the page state, and the
 * per-vehicle, per-month and grand totals of the selected year.
 */
module MonthlyIncome {
  import opened Wrappers
  import opened Numbers
  import opened Collections
  import opened Domain
  import Income
  import Dashboard

  // ---------------------------------------------------------------------
  // Years offered
  // ---------------------------------------------------------------------

  /** `initialYears`: the current year, 2025, 2024 and 2023. */
  function InitialYears(currentYear: int): set<int> {
    {currentYear, 2025, 2024, 2023}
  }

  /** `availableYears`: the initial years and the years with data, once each, latest first. */
  function AvailableYears(data: seq<YearlyIncome>, currentYear: int): (r: seq<int>)
    ensures StrictlyDescending(r)
    ensures forall y :: y in r <==> y in InitialYears(currentYear) || exists i :: 0 <= i < |data| && data[i].year == y
  {
    var years := InitialYears(currentYear) + set d | d in data :: d.year;
    var r := SortDescending(years);
    assert forall y :: y in years <==> y in InitialYears(currentYear) || exists i :: 0 <= i < |data| && data[i].year == y by {
      forall y | y in years && y !in InitialYears(currentYear)
        ensures exists i :: 0 <= i < |data| && data[i].year == y
      {
        var d :| d in data && d.year == y;
        var i :| 0 <= i < |data| && data[i] == d;
      }
    }
    r
  }

  // ---------------------------------------------------------------------
  // Editing a month cell
  // ---------------------------------------------------------------------

  /** Which table a cell belongs to. */
  datatype Kind = Own | Subcontracted

  /** The own-fleet rows with `income[month]` set to `v` on every row whose id is `id`. */
  function EditFleet(fleet: seq<VehicleIncome>, id: Cell, month: int, v: real): (r: seq<VehicleIncome>)
    ensures |r| == |fleet|
    ensures forall j :: 0 <= j < |fleet| ==>
      r[j] == if fleet[j].id == id then fleet[j].(income := fleet[j].income[month := v]) else fleet[j]
  {
    MapSeq(fleet, (x: VehicleIncome) => if x.id == id then x.(income := x.income[month := v]) else x)
  }

  /**
   * `{ ...d, ...updatedData }`: record `d` takes the one field the edit
   * rebuilt from `base`, the first record of the year.
   */
  function Patch(d: YearlyIncome, base: YearlyIncome, kind: Kind, id: Cell, month: int, v: real): YearlyIncome {
    match kind
    case Own => d.(ownFleet := EditFleet(base.ownFleet, id, month, v))
    case Subcontracted => d.(subcontracted := base.subcontracted[month := v])
  }

  /** The record an edit starts from when the year has none. */
  function Blank(year: int): YearlyIncome {
    YearlyIncome(year, [], map[])
  }

  /**
   * The income list after `handleIncomeChange`: every record of the year is
   * patched from the first one; with no record of the year, a patched blank
   * record is appended.
   */
  function Edited(data: seq<YearlyIncome>, year: int, kind: Kind, id: Cell, month: int, v: real): seq<YearlyIncome> {
    match Income.YearRecord(data, year)
    case None => data + [Patch(Blank(year), Blank(year), kind, id, month, v)]
    case Some(first) =>
      MapSeq(data, (d: YearlyIncome) => if d.year == year then Patch(d, first, kind, id, month, v) else d)
  }

  /** The page state the handler rewrites. */
  class IncomePage {
    var incomeData: seq<YearlyIncome>
    var selectedYear: int

    constructor(data: seq<YearlyIncome>, year: int)
      ensures incomeData == data && selectedYear == year
    {
      incomeData := data;
      selectedYear := year;
    }

    /** `handleIncomeChange`: the value is `parseFloat(value) || 0`. */
    method IncomeChange(kind: Kind, id: Cell, month: int, value: string)
      modifies this
      ensures selectedYear == old(selectedYear)
      ensures incomeData == Edited(old(incomeData), selectedYear, kind, id, month, OrZero(ParseFloat(value)))
    {
      incomeData := Edited(incomeData, selectedYear, kind, id, month, OrZero(ParseFloat(value)));
    }
  }

  /** With a record of the year, the list keeps its length and the other years' records. */
  lemma EditKeepsOtherYears(data: seq<YearlyIncome>, year: int, kind: Kind, id: Cell, month: int, v: real)
    requires Income.YearRecord(data, year).Some?
    ensures var r := Edited(data, year, kind, id, month, v);
      |r| == |data| &&
      (forall i :: 0 <= i < |data| && data[i].year != year ==> r[i] == data[i]) &&
      (forall i :: 0 <= i < |data| && data[i].year == year ==> r[i].year == year)
  {
  }

  /**
   * An own-fleet edit sets `income[month]` of the rows with that id in the
   * first record of the year; the other rows, the other months and the
   * subcontracted months stay as they were.
   */
  lemma OwnEditSetsMonth(data: seq<YearlyIncome>, year: int, id: Cell, month: int, v: real)
    requires Income.YearRecord(data, year).Some?
    ensures var k := FindIndex(data, (d: YearlyIncome) => d.year == year).value;
      var before := data[k].ownFleet;
      var after := Edited(data, year, Own, id, month, v)[k];
      after.subcontracted == data[k].subcontracted && |after.ownFleet| == |before| &&
      forall j :: 0 <= j < |before| ==>
        after.ownFleet[j].id == before[j].id &&
        (before[j].id == id ==> Get(after.ownFleet[j].income, month) == v) &&
        (before[j].id != id ==> after.ownFleet[j] == before[j]) &&
        (forall m :: m != month ==> Get(after.ownFleet[j].income, m) == Get(before[j].income, m))
  {
  }

  /** A subcontracted edit sets that month of the first record of the year and nothing else. */
  lemma SubcontractedEditSetsMonth(data: seq<YearlyIncome>, year: int, month: int, v: real)
    requires Income.YearRecord(data, year).Some?
    ensures var k := FindIndex(data, (d: YearlyIncome) => d.year == year).value;
      var after := Edited(data, year, Subcontracted, Missing, month, v)[k];
      after.ownFleet == data[k].ownFleet && after.subcontracted == data[k].subcontracted[month := v]
  {
  }

  /** With no record of the year, one is appended: no own rows, and only the edited subcontracted month. */
  lemma EditAppendsYear(data: seq<YearlyIncome>, year: int, kind: Kind, id: Cell, month: int, v: real)
    requires Income.YearRecord(data, year).None?
    ensures Edited(data, year, kind, id, month, v)
      == data + [YearlyIncome(year, [], if kind == Own then map[] else map[month := v])]
  {
  }

  // ---------------------------------------------------------------------
  // Totals of the selected year
  // ---------------------------------------------------------------------

  /** The object key of a row: `String(vehicle.id)`. */
  function RowKey(v: VehicleIncome): string {
    CellText(v.id)
  }

  /** `ownFleetTotals` of a list of rows: each row's total under its key; a later row with the same key overwrites. */
  function FleetTotals(fleet: seq<VehicleIncome>): (r: map<string, real>)
    ensures forall k :: k in r <==> exists i :: 0 <= i < |fleet| && RowKey(fleet[i]) == k
    decreases |fleet|
  {
    if fleet == [] then map[]
    else
      var last := fleet[|fleet| - 1];
      var r := FleetTotals(fleet[..|fleet| - 1])[RowKey(last) := Dashboard.RowTotal(last)];
      assert forall k :: k in r <==> exists i :: 0 <= i < |fleet| && RowKey(fleet[i]) == k by {
        forall k | k in r
          ensures exists i :: 0 <= i < |fleet| && RowKey(fleet[i]) == k
        {
          if k != RowKey(last) {
            var i :| 0 <= i < |fleet| - 1 && RowKey(fleet[..|fleet| - 1][i]) == k;
            assert fleet[i] == fleet[..|fleet| - 1][i];
          }
        }
        forall k, i | 0 <= i < |fleet| && RowKey(fleet[i]) == k
          ensures k in r
        {
          if i < |fleet| - 1 {
            assert fleet[..|fleet| - 1][i] == fleet[i];
          }
        }
      }
      r
  }

  /** The total under a key is the total of the last row with that key. */
  lemma {:induction false} FleetTotalsLastWins(fleet: seq<VehicleIncome>, i: nat)
    requires i < |fleet|
    requires forall j :: i < j < |fleet| ==> RowKey(fleet[j]) != RowKey(fleet[i])
    ensures FleetTotals(fleet)[RowKey(fleet[i])] == Dashboard.RowTotal(fleet[i])
    decreases |fleet|
  {
    if i < |fleet| - 1 {
      var prefix := fleet[..|fleet| - 1];
      assert prefix[i] == fleet[i];
      FleetTotalsLastWins(prefix, i);
    }
  }

  /** `ownFleetTotals`: empty when the year has no record. */
  function OwnFleetTotals(data: seq<YearlyIncome>, year: int): (r: map<string, real>)
    ensures Income.YearRecord(data, year).None? ==> r == map[]
  {
    match Income.YearRecord(data, year)
    case None => map[]
    case Some(d) => FleetTotals(d.ownFleet)
  }

  function MonthOf(m: int): VehicleIncome -> real {
    (v: VehicleIncome) => Get(v.income, m)
  }

  /** `totals[m]`: the month across the own rows plus the subcontracted month; a missing month counts 0. */
  function MonthTotal(d: YearlyIncome, m: int): real {
    SumBy(d.ownFleet, MonthOf(m)) + Get(d.subcontracted, m)
  }

  /** The `totals` record of the page. */
  datatype MonthTotals = MonthTotals(months: map<int, real>, ownGrandTotal: real, subGrandTotal: real, grandTotal: real)

  /** `monthlyTotals`: none when the year has no record. */
  method MonthlyTotals(data: seq<YearlyIncome>, year: int) returns (r: Option<MonthTotals>)
    ensures Income.YearRecord(data, year).None? ==> r.None?
    ensures Income.YearRecord(data, year).Some? ==>
      var d := Income.YearRecord(data, year).value;
      r.Some? &&
      (forall m :: m in r.value.months <==> 1 <= m <= 12) &&
      (forall m :: m in r.value.months ==> r.value.months[m] == MonthTotal(d, m)) &&
      r.value.ownGrandTotal == SumBy(d.ownFleet, Dashboard.RowTotal) &&
      r.value.subGrandTotal == SumValues(d.subcontracted) &&
      r.value.grandTotal == r.value.ownGrandTotal + r.value.subGrandTotal
  {
    var found := Income.YearRecord(data, year);
    if found.None? {
      return None;
    }
    var d := found.value;
    var totals: map<int, real> := map[];
    for i := 1 to 13
      invariant forall m :: m in totals <==> 1 <= m < i
      invariant forall m :: m in totals ==> totals[m] == MonthTotal(d, m)
    {
      var own := SumBy(d.ownFleet, MonthOf(i));
      var sub := Get(d.subcontracted, i);
      totals := totals[i := own + sub];
    }
    var ownGrand := SumBy(d.ownFleet, Dashboard.RowTotal);
    var subGrand := SumValues(d.subcontracted);
    return Some(MonthTotals(totals, ownGrand, subGrand, ownGrand + subGrand));
  }

  /** A month map whose keys are all months 1 .. 12. */
  predicate MonthKeys(m: map<int, real>) {
    forall k :: k in m ==> 1 <= k <= 12
  }

  /** `m[1] + … + m[n]`, a missing month counting 0. */
  function SumUpTo(m: map<int, real>, n: nat): real {
    if n == 0 then 0.0 else SumUpTo(m, n - 1) + Get(m, n)
  }

  /** For a map keyed by months up to `n`, summing its values is summing months 1 .. n. */
  lemma {:induction false} SumValuesByMonth(m: map<int, real>, n: nat)
    requires forall k :: k in m ==> 1 <= k <= n
    ensures SumValues(m) == SumUpTo(m, n)
    decreases |m|
  {
    if |m| == 0 {
      SumUpToAgree(m, map[], n);
      SumUpToEmpty(n);
    } else {
      var k := Min(m.Keys);
      var rest := m - {k};
      SumValuesByMonth(rest, n);
      SumUpToRemove(m, k, n);
    }
  }

  lemma {:induction false} SumUpToEmpty(n: nat)
    ensures SumUpTo(map[], n) == 0.0
  {
    if n > 0 {
      SumUpToEmpty(n - 1);
    }
  }

  /** Removing one month from the map takes its value out of the sum of months 1 .. n. */
  lemma {:induction false} SumUpToRemove(m: map<int, real>, k: int, n: nat)
    requires k in m && 1 <= k <= n
    ensures SumUpTo(m, n) == m[k] + SumUpTo(m - {k}, n)
  {
    if n == k {
      SumUpToAgree(m - {k}, m, n - 1);
    } else {
      SumUpToRemove(m, k, n - 1);
    }
  }

  lemma {:induction false} SumUpToAgree(a: map<int, real>, b: map<int, real>, n: nat)
    requires forall k :: 1 <= k <= n ==> Get(a, k) == Get(b, k)
    ensures SumUpTo(a, n) == SumUpTo(b, n)
  {
    if n > 0 {
      SumUpToAgree(a, b, n - 1);
    }
  }

  function RowUpTo(n: nat): VehicleIncome -> real {
    (v: VehicleIncome) => SumUpTo(v.income, n)
  }

  /** The months 1 .. n of the own rows, summed month by month. */
  function ColumnsUpTo(fleet: seq<VehicleIncome>, n: nat): real {
    if n == 0 then 0.0 else ColumnsUpTo(fleet, n - 1) + SumBy(fleet, MonthOf(n))
  }

  /** Summing row totals or column totals of the own rows gives the same. */
  lemma {:induction false} RowsThenColumns(fleet: seq<VehicleIncome>, n: nat)
    ensures SumBy(fleet, RowUpTo(n)) == ColumnsUpTo(fleet, n)
  {
    if n == 0 {
      SumByZero(fleet, RowUpTo(0));
    } else {
      RowsThenColumns(fleet, n - 1);
      SumByAdd(fleet, RowUpTo(n - 1), MonthOf(n), RowUpTo(n));
    }
  }

  lemma {:induction false} SumByZero(fleet: seq<VehicleIncome>, f: VehicleIncome -> real)
    requires forall i :: 0 <= i < |fleet| ==> f(fleet[i]) == 0.0
    ensures SumBy(fleet, f) == 0.0
    decreases |fleet|
  {
    if fleet != [] {
      SumByZero(fleet[..|fleet| - 1], f);
    }
  }

  /** `totals[1] + … + totals[n]`. */
  function MonthsUpTo(d: YearlyIncome, n: nat): real {
    if n == 0 then 0.0 else MonthsUpTo(d, n - 1) + MonthTotal(d, n)
  }

  lemma {:induction false} MonthsSplit(d: YearlyIncome, n: nat)
    ensures MonthsUpTo(d, n) == ColumnsUpTo(d.ownFleet, n) + SumUpTo(d.subcontracted, n)
  {
    if n > 0 {
      MonthsSplit(d, n - 1);
    }
  }

  /**
   * When every month map of the record is keyed by months 1 .. 12, the grand
   * total is the sum of the twelve month totals.
   */
  lemma GrandTotalIsSumOfMonths(d: YearlyIncome)
    requires forall i :: 0 <= i < |d.ownFleet| ==> MonthKeys(d.ownFleet[i].income)
    requires MonthKeys(d.subcontracted)
    ensures SumBy(d.ownFleet, Dashboard.RowTotal) + SumValues(d.subcontracted) == MonthsUpTo(d, 12)
  {
    forall i | 0 <= i < |d.ownFleet|
      ensures Dashboard.RowTotal(d.ownFleet[i]) == RowUpTo(12)(d.ownFleet[i])
    {
      SumValuesByMonth(d.ownFleet[i].income, 12);
    }
    SumByCongruent(d.ownFleet, Dashboard.RowTotal, RowUpTo(12));
    RowsThenColumns(d.ownFleet, 12);
    SumValuesByMonth(d.subcontracted, 12);
    MonthsSplit(d, 12);
  }

  /** The dashboard's income card and this page's grand total agree for the same year. */
  lemma DashboardAgrees(data: seq<YearlyIncome>, year: int)
    requires Income.YearRecord(data, year).Some?
    requires var d := Income.YearRecord(data, year).value;
      (forall i :: 0 <= i < |d.ownFleet| ==> MonthKeys(d.ownFleet[i].income)) && MonthKeys(d.subcontracted)
    ensures Dashboard.YearIncome(data, year).total == MonthsUpTo(Income.YearRecord(data, year).value, 12)
  {
    GrandTotalIsSumOfMonths(Income.YearRecord(data, year).value);
  }
}
