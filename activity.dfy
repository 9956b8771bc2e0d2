/**
 * How much of a study year a vehicle was in the fleet: its ownership
 * interval clipped to 1 January .. 31 December, counted in whole calendar
 * months, and the three time coefficients the pages derive from it
 * (src/pages/CostAnalysis.tsx, src/pages/VehicleAnalysis.tsx and
 * src/pages/FleetManagement.tsx each carry their own copy).
 */
module Activity {
  import opened Wrappers
  import opened Dates
  import opened Domain

  /** `new Date(year, 0, 1)`. */
  function YearStart(year: int): (d: Date)
    ensures d == Date(JsYear(year), 1, 1)
  {
    MakeDateValid(Date(JsYear(year), 1, 1));
    MakeDate(year, 0, 1)
  }

  /** `new Date(year, 11, 31)`. */
  function YearEnd(year: int): (d: Date)
    ensures d == Date(JsYear(year), 12, 31)
  {
    MakeDateValid(Date(JsYear(year), 12, 31));
    MakeDate(year, 11, 31)
  }

  /** The acquisition date of a vehicle as the pages read it. */
  function Acquired(v: Vehicle, native: string -> Option<Date>): Date {
    ParseDate(v.acquisitionDate, native)
  }

  /** The sale date, when the vehicle has one (`v.saleDate ? … : null`). */
  function Sold(v: Vehicle, native: string -> Option<Date>): (r: Option<Date>)
    ensures r.None? <==> v.saleDate == ""
  {
    if v.saleDate != "" then Some(ParseDate(v.saleDate, native)) else None
  }

  /** Acquired after 31 December, or sold before 1 January, of the study year. */
  predicate Excluded(acq: Date, sale: Option<Date>, year: int) {
    Earlier(YearEnd(year), acq) || (sale.Some? && Earlier(sale.value, YearStart(year)))
  }

  /** The later of the acquisition and 1 January. */
  function WindowStart(acq: Date, year: int): Date {
    if Earlier(YearStart(year), acq) then acq else YearStart(year)
  }

  /** The earlier of the sale and 31 December. */
  function WindowEnd(sale: Option<Date>, year: int): Date {
    if sale.Some? && Earlier(sale.value, YearEnd(year)) then sale.value else YearEnd(year)
  }

  /** The whole-month difference between the ends of the window. */
  function MonthSpan(acq: Date, sale: Option<Date>, year: int): int {
    var s, e := WindowStart(acq, year), WindowEnd(sale, year);
    (e.year - s.year) * 12 + e.month - s.month
  }

  /** Cost analysis: `monthsActive`, the span plus one clamped to 1 .. 12. */
  function MonthsActive(acq: Date, sale: Option<Date>, year: int): int {
    var m := MonthSpan(acq, sale, year) + 1;
    if m < 1 then 1 else if m > 12 then 12 else m
  }

  /** Cost analysis: `coefTime = monthsActive / 12`. */
  function CoefTime(acq: Date, sale: Option<Date>, year: int): real {
    MonthsActive(acq, sale, year) as real / 12.0
  }

  /** Vehicle analysis: `annualCoefficient = (months <= 0 ? 1 : months + 1) / 12`. */
  function AnnualCoefficient(acq: Date, sale: Option<Date>, year: int): real {
    var m := MonthSpan(acq, sale, year);
    (if m <= 0 then 1 else m + 1) as real / 12.0
  }

  /**
   * Fleet management: `calculateCoefficient`, 0 for an excluded vehicle,
   * otherwise the month count built up in three steps.
   */
  function FleetCoefficient(acq: Date, sale: Option<Date>, year: int): real {
    if Excluded(acq, sale, year) then 0.0
    else
      var s, e := WindowStart(acq, year), WindowEnd(sale, year);
      var months := (e.year - s.year) * 12;
      var months := months - (s.month - 1);
      var months := months + (e.month - 1);
      (if months <= 0 then 1 else months + 1) as real / 12.0
  }

  /** `calculateCoefficient(vehicle)` on the dates of a vehicle. */
  function VehicleCoefficient(v: Vehicle, year: int, native: string -> Option<Date>): real {
    FleetCoefficient(Acquired(v, native), Sold(v, native), year)
  }

  /**
   * Both ends of the window of a vehicle that is not excluded lie in the
   * study year, so the span is at most 11 months either way.
   */
  lemma MonthSpanRange(acq: Date, sale: Option<Date>, year: int)
    requires !Excluded(acq, sale, year)
    ensures -11 <= MonthSpan(acq, sale, year) <= 11
  {
    var y := JsYear(year);
    var s, e := WindowStart(acq, year), WindowEnd(sale, year);
    assert s.year == y && 1 <= s.month <= 12;
    assert e.year == y && 1 <= e.month <= 12;
  }

  /** The month count of the cost analysis page is between 1 and 12; its coefficient between 1/12 and 1. */
  lemma CoefTimeBounds(acq: Date, sale: Option<Date>, year: int)
    ensures 1 <= MonthsActive(acq, sale, year) <= 12
    ensures 1.0 / 12.0 <= CoefTime(acq, sale, year) <= 1.0
  {
  }

  /** The vehicle analysis coefficient of an active vehicle is between 1/12 and 1. */
  lemma AnnualCoefficientBounds(acq: Date, sale: Option<Date>, year: int)
    requires !Excluded(acq, sale, year)
    ensures 1.0 / 12.0 <= AnnualCoefficient(acq, sale, year) <= 1.0
  {
    MonthSpanRange(acq, sale, year);
  }

  /** The fleet coefficient is 0 exactly for excluded vehicles, and otherwise between 1/12 and 1. */
  lemma FleetCoefficientZeroIff(acq: Date, sale: Option<Date>, year: int)
    ensures FleetCoefficient(acq, sale, year) == 0.0 <==> Excluded(acq, sale, year)
    ensures !Excluded(acq, sale, year) ==> 1.0 / 12.0 <= FleetCoefficient(acq, sale, year) <= 1.0
  {
    if !Excluded(acq, sale, year) {
      MonthSpanRange(acq, sale, year);
    }
  }

  /** The three copies of the coefficient agree on every vehicle that is not excluded. */
  lemma CoefficientsAgree(acq: Date, sale: Option<Date>, year: int)
    requires !Excluded(acq, sale, year)
    ensures CoefTime(acq, sale, year) == AnnualCoefficient(acq, sale, year)
    ensures AnnualCoefficient(acq, sale, year) == FleetCoefficient(acq, sale, year)
  {
    MonthSpanRange(acq, sale, year);
  }

  /** A vehicle bought on 1 July of the study year and never sold counts for half the year. */
  lemma FirstOfJuly(year: int)
    requires !(0 <= year <= 99)
    ensures FleetCoefficient(Date(year, 7, 1), None, year) == 6.0 / 12.0
    ensures !Excluded(Date(year, 7, 1), None, year)
  {
  }

  /** The same vehicle as the sheet stores it: acquisition "YYYY-07-01" and no sale date. */
  lemma FirstOfJulyVehicle(v: Vehicle, year: int, native: string -> Option<Date>)
    requires 1000 <= year <= 9999
    requires v.acquisitionDate == IsoText(Date(year, 7, 1)) && v.saleDate == ""
    ensures VehicleCoefficient(v, year, native) == 6.0 / 12.0
  {
    ParseDateIso(Date(year, 7, 1), native);
    FirstOfJuly(year);
  }
}
