/**
 * The vehicle analysis page (src/pages/VehicleAnalysis.tsx): expense rows
 * of the P&L with European-formatted amounts, the annual-over-monthly
 * deduplication, and the per-vehicle allocation of the general direct,
 * indirect and amortisation pools, with the fleet totals summed key by key.
 */
module VehicleAnalysis {
  import opened Wrappers
  import opened Text
  import opened Numbers
  import opened Collections
  import opened Domain
  import opened Dates
  import opened Ledger
  import opened Activity
  import opened Allocation
  import I = Income

  // ---------------------------------------------------------------------
  // Amounts

  /** `(\.\d{3})*`: a run of dot-separated groups of three digits. */
  predicate DotGroups(g: string)
    decreases |g|
  {
    g == [] || (|g| >= 4 && g[0] == '.' && AllDigits(g[1..4]) && DotGroups(g[4..]))
  }

  /** `\d{1,3}(\.\d{3})*`: an integer part with thousands separators. */
  predicate GroupedInteger(p: string) {
    var n := LeadingDigits(p);
    1 <= n <= 3 && DotGroups(p[n..])
  }

  /** `^-?\d{1,3}(\.\d{3})*(,\d+)?$`: a number in the European format. */
  predicate GroupedNumber(t: string) {
    var u := if t != [] && t[0] == '-' then t[1..] else t;
    var ip := Before(u, ',');
    GroupedInteger(ip) && (|ip| == |u| || (|u| > |ip| + 1 && AllDigits(u[|ip| + 1..])))
  }

  /**
   * `parseAmount`: a number as it is; a European-formatted text without its
   * dots and with its comma as the decimal point; any other text through
   * `Number`; 0 for an empty cell or anything unreadable.
   */
  function ParseAmount(value: Cell): (r: real)
    ensures value.Num? ==> r == value.n
    ensures value.Missing? || value == Text("") ==> r == 0.0
  {
    match value
    case Num(n) => n
    case Missing => 0.0
    case Text(s) =>
      if s == "" then 0.0
      else
        var cleaned := Trim(s);
        if GroupedNumber(cleaned) then OrZero(ParseFloat(ReplaceFirst(RemoveChar(cleaned, '.'), ',', '.')))
        else OrZero(NumberOf(cleaned))
  }

  /** A trimmed European-formatted text goes through the separator rewriting. */
  lemma ParseGrouped(t: string)
    requires t != "" && Trim(t) == t && GroupedNumber(t)
    ensures ParseAmount(Text(t)) == OrZero(ParseFloat(ReplaceFirst(RemoveChar(t, '.'), ',', '.')))
  {
  }

  /** Digits, one separator character, digits: no leading or trailing whitespace. */
  lemma {:induction false} SeparatedTrimmed(a: string, c: char, b: string)
    requires a != [] && AllDigits(a) && b != [] && AllDigits(b)
    ensures Trim(a + [c] + b) == a + [c] + b
    ensures forall i :: 0 <= i < |a + [c] + b| && (a + [c] + b)[i] != c ==> IsDigit((a + [c] + b)[i])
  {
    var t := a + [c] + b;
    assert t[0] == a[0] && t[|t| - 1] == b[|b| - 1];
    TrimStartDigitOrSign(t);
    TrimEndNoSpace(t);
    forall i | 0 <= i < |t| && t[i] != c
      ensures IsDigit(t[i])
    {
      if i < |a| {
        assert t[i] == a[i];
      } else if i > |a| {
        assert t[i] == b[i - |a| - 1];
      }
    }
  }

  /** `a.bbb` is a European-formatted number. */
  lemma ThousandsGrouped(a: string, b: string)
    requires 1 <= |a| <= 3 && AllDigits(a) && |b| == 3 && AllDigits(b)
    ensures GroupedNumber(a + "." + b)
  {
    var t := a + "." + b;
    ThousandsNoComma(a, b);
    BeforeAbsent(t, ',');
    ThousandsGroupedInteger(a, b);
  }

  /** `a.bbb` has no comma and does not start with a sign. */
  lemma ThousandsNoComma(a: string, b: string)
    requires |a| >= 1 && AllDigits(a) && AllDigits(b)
    ensures ',' !in a + "." + b && (a + "." + b)[0] != '-'
  {
    var t := a + "." + b;
    assert t[0] == a[0];
    forall i | 0 <= i < |t|
      ensures t[i] != ','
    {
      if i < |a| {
        assert t[i] == a[i];
      } else if i > |a| {
        assert t[i] == b[i - |a| - 1];
      }
    }
  }

  /** `a.bbb` is an integer part with one thousands group. */
  lemma {:induction false} ThousandsGroupedInteger(a: string, b: string)
    requires 1 <= |a| <= 3 && AllDigits(a) && |b| == 3 && AllDigits(b)
    ensures GroupedInteger(a + "." + b)
  {
    var t := a + "." + b;
    assert t == a + ("." + b);
    LeadingDigitsStop(a, "." + b);
    assert t[|a|..] == "." + b;
    var g := "." + b;
    assert g[1..4] == b && g[4..] == [];
    assert DotGroups(g[4..]);
  }

  /** Without its dot, `a.bbb` is `abbb`. */
  lemma {:induction false} ThousandsUndotted(a: string, b: string)
    requires AllDigits(a) && AllDigits(b)
    ensures RemoveChar(a + "." + b, '.') == a + b
  {
    assert a + "." + b == a + ("." + b);
    RemoveCharAppend(a, "." + b, '.');
    RemoveCharAppend(".", b, '.');
    RemoveCharAbsent(a, '.');
    RemoveCharAbsent(b, '.');
    assert RemoveChar(".", '.') == [];
  }

  /** The parse of a trimmed European text whose separators rewrite to a string of digits. */
  lemma {:induction false} GroupedDigits(t: string, d: string)
    requires t != "" && Trim(t) == t && GroupedNumber(t)
    requires RemoveChar(t, '.') == d && d != [] && AllDigits(d)
    ensures ParseAmount(Text(t)) == DigitsValue(d) as real
  {
    ParseGrouped(t);
    assert ',' !in d by {
      forall i | 0 <= i < |d| ensures d[i] != ',' {
        assert IsDigit(d[i]);
      }
    }
    ParseDigits(d);
  }

  /**
   * A dot is a thousands separator: `a.bbb` is read as the integer `abbb`,
   * where `Number` would have read a decimal.
   */
  lemma ThousandsSeparator(a: string, b: string)
    requires 1 <= |a| <= 3 && AllDigits(a) && |b| == 3 && AllDigits(b)
    ensures ParseAmount(Text(a + "." + b)) == DigitsValue(a + b) as real
    ensures NumberOf(a + "." + b) == Some(DigitsValue(a) as real + FractionValue(b))
  {
    var t := a + "." + b;
    assert t == a + ['.'] + b;
    SeparatedTrimmed(a, '.', b);
    ThousandsGrouped(a, b);
    ThousandsUndotted(a, b);
    var d := a + b;
    assert AllDigits(d) by {
      forall i | 0 <= i < |d| ensures IsDigit(d[i]) {
        if i < |a| { assert d[i] == a[i]; } else { assert d[i] == b[i - |a|]; }
      }
    }
    assert d != [];
    assert t != "";
    GroupedDigits(t, d);
    NumberOfDecimal(a, b);
  }

  /** `a,b` is a European-formatted number. */
  lemma {:induction false} CommaGrouped(a: string, b: string)
    requires 1 <= |a| <= 3 && AllDigits(a) && b != [] && AllDigits(b)
    ensures GroupedNumber(a + "," + b)
  {
    var t := a + "," + b;
    assert t == a + [','] + b;
    assert ',' !in a;
    BeforeAppend(a, ',', b);
    LeadingDigitsAll(a);
    assert a[|a|..] == [];
    assert t[|a| + 1..] == b;
  }

  /** The parse of a trimmed European text with no dots whose comma rewrites to `a.b`. */
  lemma GroupedDecimal(t: string, a: string, b: string)
    requires t != "" && Trim(t) == t && GroupedNumber(t)
    requires RemoveChar(t, '.') == t && ReplaceFirst(t, ',', '.') == a + "." + b
    requires a != [] && AllDigits(a) && b != [] && AllDigits(b)
    ensures ParseAmount(Text(t)) == DigitsValue(a) as real + FractionValue(b)
  {
    ParseGrouped(t);
    NumberOfDecimal(a, b);
  }

  /** `a,b` of digits has no dot, and its first comma rewrites to `a.b`. */
  lemma {:induction false} CommaToPoint(a: string, b: string)
    requires AllDigits(a) && AllDigits(b)
    ensures RemoveChar(a + "," + b, '.') == a + "," + b
    ensures ReplaceFirst(a + "," + b, ',', '.') == a + "." + b
  {
    var t := a + "," + b;
    assert t == a + [','] + b;
    assert '.' !in t by {
      forall i | 0 <= i < |t| ensures t[i] != '.' {
        if i < |a| { assert t[i] == a[i]; } else if i > |a| { assert t[i] == b[i - |a| - 1]; }
      }
    }
    RemoveCharAbsent(t, '.');
    assert t[..|a|] == a && t[|a| + 1..] == b;
    assert ',' !in a by {
      forall i | 0 <= i < |a| ensures a[i] != ',' { assert IsDigit(a[i]); }
    }
    ReplaceFirstAt(t, ',', '.', |a|);
  }

  /** A comma is the decimal point: `a,b` is read as `a.b`. */
  lemma DecimalComma(a: string, b: string)
    requires 1 <= |a| <= 3 && AllDigits(a) && b != [] && AllDigits(b)
    ensures ParseAmount(Text(a + "," + b)) == DigitsValue(a) as real + FractionValue(b)
  {
    var t := a + "," + b;
    assert t == a + [','] + b;
    SeparatedTrimmed(a, ',', b);
    CommaGrouped(a, b);
    CommaToPoint(a, b);
    GroupedDecimal(a + "," + b, a, b);
  }

  // ---------------------------------------------------------------------
  // Expense rows and the annual/monthly deduplication

  /** An expense row: a P&L row of a real account whose amount parses below 0. */
  predicate IsExpenseRow(row: SheetRow) {
    IsPyG(row) && IsAccountCode(Field(row, "concept")) && ParseAmount(Field(row, "amount")) < 0.0
  }

  /** `Number(d.month) || 0`. */
  function RowMonth(row: SheetRow): real {
    NumberOrZero(Field(row, "month"))
  }

  /** The months seen for each year, row by row (`yearMonths[year].add(month)`). */
  function YearMonths(rows: seq<SheetRow>): (ym: map<Option<int>, set<real>>)
    decreases |rows|
  {
    if rows == [] then map[]
    else
      var ym := YearMonths(rows[..|rows| - 1]);
      var row := rows[|rows| - 1];
      var y := RowYear(row);
      ym[y := (if y in ym then ym[y] else {}) + {RowMonth(row)}]
  }

  /** The loop that fills `yearMonths`, a set of months per year. */
  method CollectYearMonths(rows: seq<SheetRow>) returns (ym: map<Option<int>, set<real>>)
    ensures ym == YearMonths(rows)
  {
    ym := map[];
    for i := 0 to |rows|
      invariant ym == YearMonths(rows[..i])
    {
      YearMonthsStep(rows, i);
      var y := RowYear(rows[i]);
      ghost var before := ym;
      if y !in ym {
        ym := ym[y := {}];
      }
      assert ym[y] == if y in before then before[y] else {};
      ym := ym[y := ym[y] + {RowMonth(rows[i])}];
    }
    assert rows[..|rows|] == rows;
  }

  lemma YearMonthsStep(rows: seq<SheetRow>, i: nat)
    requires i < |rows|
    ensures var ym := YearMonths(rows[..i]);
      var y := RowYear(rows[i]);
      YearMonths(rows[..i + 1]) == ym[y := (if y in ym then ym[y] else {}) + {RowMonth(rows[i])}]
  {
    assert rows[..i + 1][..i] == rows[..i];
  }

  /** A year has a month in `yearMonths` exactly when some row of that year carries it. */
  lemma {:induction false} YearMonthsSpec(rows: seq<SheetRow>, y: Option<int>, m: real)
    ensures (y in YearMonths(rows) && m in YearMonths(rows)[y])
      <==> exists i :: 0 <= i < |rows| && RowYear(rows[i]) == y && RowMonth(rows[i]) == m
    decreases |rows|
  {
    if rows != [] {
      var init := rows[..|rows| - 1];
      var last := rows[|rows| - 1];
      YearMonthsSpec(init, y, m);
      YearMonthsLast(rows, y, m);
      CarriedLast(rows, y, m);
    }
  }

  /** Some row carries year `y` and month `m` exactly when an earlier row or the last one does. */
  lemma CarriedLast(rows: seq<SheetRow>, y: Option<int>, m: real)
    requires rows != []
    ensures var init, last := rows[..|rows| - 1], rows[|rows| - 1];
      (exists i :: 0 <= i < |rows| && RowYear(rows[i]) == y && RowMonth(rows[i]) == m)
      <==> (exists i :: 0 <= i < |init| && RowYear(init[i]) == y && RowMonth(init[i]) == m)
           || (RowYear(last) == y && RowMonth(last) == m)
  {
    ExistsSnoc(rows, rows[..|rows| - 1], (row: SheetRow) => RowYear(row) == y && RowMonth(row) == m);
  }

  /** The last row adds its own month to its year and changes nothing else. */
  lemma YearMonthsLast(rows: seq<SheetRow>, y: Option<int>, m: real)
    requires rows != []
    ensures var ym, before := YearMonths(rows), YearMonths(rows[..|rows| - 1]);
      (y in ym && m in ym[y])
      <==> (y in before && m in before[y]) || (y == RowYear(rows[|rows| - 1]) && m == RowMonth(rows[|rows| - 1]))
  {
  }

  /** The dedup test of one row: month 0 when its year has an annual row, else a month 1 .. 12. */
  predicate Keep(ym: map<Option<int>, set<real>>, row: SheetRow) {
    var y := RowYear(row);
    var m := RowMonth(row);
    if y in ym && 0.0 in ym[y] then m == 0.0 else 1.0 <= m <= 12.0
  }

  /** The expense rows after the deduplication. */
  function Deduplicated(rows: seq<SheetRow>): (r: seq<SheetRow>) {
    var ym := YearMonths(rows);
    Filter(rows, (row: SheetRow) => Keep(ym, row))
  }

  /** The year has an annual row among the expense rows. */
  predicate HasAnnual(rows: seq<SheetRow>, y: Option<int>) {
    exists i :: 0 <= i < |rows| && RowYear(rows[i]) == y && RowMonth(rows[i]) == 0.0
  }

  /**
   * The deduplication keeps a row exactly when it is annual and its year
   * has an annual row, or it is a month 1 .. 12 and its year has none.
   */
  lemma KeepIff(rows: seq<SheetRow>, row: SheetRow)
    ensures Keep(YearMonths(rows), row)
      <==> if HasAnnual(rows, RowYear(row)) then RowMonth(row) == 0.0 else 1.0 <= RowMonth(row) <= 12.0
  {
    YearMonthsSpec(rows, RowYear(row), 0.0);
  }

  /**
   * Annual rows win: in a year with an annual row only annual rows
   * survive, otherwise only the months 1 .. 12; no other month survives.
   */
  lemma DeduplicatedRows(rows: seq<SheetRow>)
    ensures forall i :: 0 <= i < |Deduplicated(rows)| ==> Deduplicated(rows)[i] in rows
    ensures forall i :: (0 <= i < |Deduplicated(rows)| && HasAnnual(rows, RowYear(Deduplicated(rows)[i]))
      ==> RowMonth(Deduplicated(rows)[i]) == 0.0)
    ensures forall i :: (0 <= i < |Deduplicated(rows)| && !HasAnnual(rows, RowYear(Deduplicated(rows)[i]))
      ==> 1.0 <= RowMonth(Deduplicated(rows)[i]) <= 12.0)
    ensures forall i :: 0 <= i < |rows| && Keep(YearMonths(rows), rows[i]) ==> rows[i] in Deduplicated(rows)
  {
    var d := Deduplicated(rows);
    forall i | 0 <= i < |d|
      ensures HasAnnual(rows, RowYear(d[i])) ==> RowMonth(d[i]) == 0.0
      ensures !HasAnnual(rows, RowYear(d[i])) ==> 1.0 <= RowMonth(d[i]) <= 12.0
    {
      KeepIff(rows, d[i]);
    }
  }

  /** Within a year the surviving rows are all annual or all monthly, never both. */
  lemma NoAnnualMonthlyMix(rows: seq<SheetRow>, i: nat, j: nat)
    requires i < |Deduplicated(rows)| && j < |Deduplicated(rows)|
    requires RowYear(Deduplicated(rows)[i]) == RowYear(Deduplicated(rows)[j])
    ensures (RowMonth(Deduplicated(rows)[i]) == 0.0) == (RowMonth(Deduplicated(rows)[j]) == 0.0)
  {
    DeduplicatedRows(rows);
  }

  // ---------------------------------------------------------------------
  // Classified costs

  /** The record of an expense row: its absolute amount, with its classification or the defaults. */
  function ExpenseRecord(row: SheetRow, cs: seq<Classification>): (c: Cost)
    ensures c.year == RowYear(row) && c.concept == ConceptOf(row)
    ensures c.amount == Abs(ParseAmount(Field(row, "amount")))
  {
    var concept := ConceptOf(row);
    Classify(RowYear(row), RowMonth(row), concept, Abs(ParseAmount(Field(row, "amount"))),
             FindClassificationVA(cs, concept))
  }

  /** The concept text of a row. */
  function ConceptOf(row: SheetRow): string {
    var c := Field(row, "concept");
    if c.Text? then c.s else ""
  }

  function ExpenseRecords(rows: seq<SheetRow>, cs: seq<Classification>): (r: seq<Cost>)
    ensures |r| == |rows|
    ensures forall i :: 0 <= i < |rows| ==> r[i] == ExpenseRecord(rows[i], cs)
  {
    seq(|rows|, i requires 0 <= i < |rows| => ExpenseRecord(rows[i], cs))
  }

  /** `costsWithClassification`: the deduplicated expense rows, classified. */
  function CostsWithClassification(financial: seq<SheetRow>, cs: seq<Classification>): (r: seq<Cost>) {
    ExpenseRecords(Deduplicated(Filter(financial, IsExpenseRow)), cs)
  }

  /**
   * Every classified cost comes from an expense row and carries its
   * amount negated, so it is positive.
   */
  lemma CostsArePositive(financial: seq<SheetRow>, cs: seq<Classification>)
    ensures forall i :: 0 <= i < |CostsWithClassification(financial, cs)| ==>
      CostsWithClassification(financial, cs)[i].amount > 0.0
  {
    var rows := Deduplicated(Filter(financial, IsExpenseRow));
    DeduplicatedRows(Filter(financial, IsExpenseRow));
    forall i | 0 <= i < |rows| ensures ExpenseRecord(rows[i], cs).amount > 0.0 {
      assert rows[i] in Filter(financial, IsExpenseRow);
      assert IsExpenseRow(rows[i]);
    }
  }

  /**
   * A concept without a code of at least 8 digits (for example one whose
   * code follows a space) is never classified and takes the defaults.
   */
  lemma UncodedTakesDefaults(row: SheetRow, cs: seq<Classification>)
    requires !StartsWithDigits(ConceptOf(row), 8)
    ensures var c := ExpenseRecord(row, cs);
            !c.classified && c.costCenter == Indirecto && c.nature == Fijo && c.distribution == "General"
  {
    EmptyCodeUnclassifiedVA(cs, ConceptOf(row));
  }

  // ---------------------------------------------------------------------
  // Active vehicles and cost pools

  /** A vehicle active in the year: `{ ...v, annualCoefficient, annualKms, income }`. */
  datatype Active = Active(vehicle: Vehicle, annualCoefficient: real, annualKms: real, income: real)

  /** A vehicle's entry in `activeVehicles`, `None` when it is excluded from the year. */
  function ActiveOf(v: Vehicle, yearly: Option<YearlyIncome>, year: int, native: string -> Option<Date>): (r: Option<Active>)
    ensures r.None? <==> Excluded(Acquired(v, native), Sold(v, native), year)
    ensures r.Some? ==> r.value.vehicle == v && 1.0 / 12.0 <= r.value.annualCoefficient <= 1.0
    ensures r.Some? ==> r.value.annualCoefficient == Activity.AnnualCoefficient(Acquired(v, native), Sold(v, native), year)
    ensures r.Some? ==> r.value.annualKms == Get(v.annualKms, year)
    ensures r.Some? ==> r.value.income == I.VehicleIncomeTotal(yearly, v.licensePlate)
  {
    var acq, sale := Acquired(v, native), Sold(v, native);
    if Excluded(acq, sale, year) then None
    else
      AnnualCoefficientBounds(acq, sale, year);
      Some(Active(v, Activity.AnnualCoefficient(acq, sale, year), Get(v.annualKms, year),
                  I.VehicleIncomeTotal(yearly, v.licensePlate)))
  }

  function ActiveVehicles(vs: seq<Vehicle>, yearly: Option<YearlyIncome>, year: int, native: string -> Option<Date>): (r: seq<Active>)
    ensures |r| <= |vs|
    ensures forall i :: 0 <= i < |r| ==> 1.0 / 12.0 <= r[i].annualCoefficient <= 1.0
    decreases |vs|
  {
    if vs == [] then []
    else
      var a := ActiveOf(vs[|vs| - 1], yearly, year, native);
      ActiveVehicles(vs[..|vs| - 1], yearly, year, native) + (if a.Some? then [a.value] else [])
  }

  function Coefficient(a: Active): real {
    a.annualCoefficient
  }

  function AnnualKms(a: Active): real {
    a.annualKms
  }

  /** The cost pools of the year that are shared out over the vehicles. */
  datatype Pools = Pools(
    generalDirectFixed: real,
    generalDirectVariable: real,
    indirectFixed: real,
    indirectVariable: real,
    intangibleAmort: real,
    tangibleAmort: real)

  /** The direct costs of a nature not routed to any vehicle (`distribution === 'General'`). */
  function GeneralDirect(yearCosts: seq<Cost>, nature: Nature): real {
    SumBy(Filter(yearCosts, (c: Cost) => c.costCenter == Directo && c.nature == nature && c.distribution == "General"), Amount)
  }

  /** The costs of a nature routed to a plate, whatever their cost centre. */
  function Routed(yearCosts: seq<Cost>, plate: string, nature: Nature): real {
    SumBy(Filter(yearCosts, (c: Cost) => c.distribution == plate && c.nature == nature), Amount)
  }

  /** An intangible amortisation account: its name mentions "software" or "licencia". */
  predicate IsIntangible(a: Account) {
    var n := ToLower(a.name);
    Contains(n, "software") || Contains(n, "licencia")
  }

  /** A tangible amortisation account other than the fleet: none of "flota", "software", "licencia". */
  predicate IsTangible(a: Account) {
    var n := ToLower(a.name);
    !Contains(n, "flota") && !Contains(n, "software") && !Contains(n, "licencia")
  }

  /** `annualValues[year] || 0`, with no fallback to the annual amount. */
  function YearValue(a: Account, year: int): real {
    Get(a.annualValues, year)
  }

  function AmortOf(accounts: seq<Account>, p: Account -> bool, year: int): real {
    SumBy(Filter(accounts, p), (a: Account) => YearValue(a, year))
  }

  function PoolsOf(yearCosts: seq<Cost>, accounts: seq<Account>, year: int): Pools {
    Pools(GeneralDirect(yearCosts, Fijo), GeneralDirect(yearCosts, Variable),
          Bucket(yearCosts, Indirecto, Fijo), Bucket(yearCosts, Indirecto, Variable),
          AmortOf(accounts, IsIntangible, year), AmortOf(accounts, IsTangible, year))
  }

  /** A fleet account is in neither amortisation pool; the two pools never share an account. */
  lemma AmortisationPools(a: Account)
    ensures !(IsIntangible(a) && IsTangible(a))
    ensures Contains(ToLower(a.name), "flota") && !IsIntangible(a) ==> !IsTangible(a)
  {
  }

  // ---------------------------------------------------------------------
  // Per-vehicle metrics

  /**
   * A JavaScript number as the page can produce it: finite, or an infinity
   * of either sign, or `NaN`, from a division by 0.
   */
  datatype Num = Finite(v: real) | Inf(positive: bool) | NaN

  /** `x / 0`: an infinity of the sign of `x`, and `NaN` for `0 / 0`. */
  function DivideByZero(x: real): (r: Num)
    ensures r.NaN? <==> x == 0.0
    ensures r.Inf? ==> (r.positive <==> x > 0.0)
    ensures !r.Finite?
  {
    if x > 0.0 then Inf(true) else if x < 0.0 then Inf(false) else NaN
  }

  /**
   * `income > 0 ? fixed / (1 - variable / income) : 0`: there is no guard
   * on the denominator, so the point is not finite when the variable costs
   * equal the income (`NaN` when there are no fixed costs either), and
   * negative when they exceed it.
   */
  function BreakEvenPoint(fixed: real, variable: real, income: real): (r: Num)
    ensures income <= 0.0 ==> r == Finite(0.0)
    ensures income > 0.0 && variable == income ==> r == DivideByZero(fixed)
    ensures income > 0.0 && variable != income ==> r.Finite? && r.v * (income - variable) == fixed * income
  {
    if income > 0.0 then
      var d := 1.0 - PerUnit(variable, income);
      if d == 0.0 then DivideByZero(fixed)
      else
        assert d * income == income - variable;
        var q := fixed / d;
        assert q * (d * income) == (q * d) * income;
        Finite(q)
    else Finite(0.0)
  }

  /** Below the income, the point is the cost analysis page's break-even. */
  lemma BreakEvenAgrees(fixed: real, variable: real, income: real)
    requires income > 0.0 && variable < income
    ensures BreakEvenPoint(fixed, variable, income) == Finite(BreakEven(fixed, ContributionRatio(income, variable)))
  {
    BreakEvenCoversFixed(income, fixed, variable);
    var r := BreakEvenPoint(fixed, variable, income).v;
    var be := BreakEven(fixed, ContributionRatio(income, variable));
    assert r * (income - variable) == be * (income - variable);
  }

  /**
   * Above the income, a positive fixed cost gives a negative point, where
   * the cost analysis page shows 0.
   */
  lemma BreakEvenNegative(fixed: real, variable: real, income: real)
    requires income > 0.0 && variable > income && fixed > 0.0
    ensures BreakEvenPoint(fixed, variable, income).Finite? && BreakEvenPoint(fixed, variable, income).v < 0.0
    ensures BreakEven(fixed, ContributionRatio(income, variable)) == 0.0
  {
    var r := BreakEvenPoint(fixed, variable, income).v;
    assert r * (income - variable) == fixed * income;
    assert fixed * income > 0.0;
    var n := variable - income;
    assert r * n < 0.0 && n > 0.0;
  }

  /** `(pool / total) * w` when the total is positive, else 0: the share of the pool for weight `w`. */
  function PoolShare(pool: real, w: real, total: real): (r: real)
    ensures r == Share(pool, w, total)
  {
    if total > 0.0 then
      assert (pool / total) * w == pool * w / total;
      (pool / total) * w
    else 0.0
  }

  /** What the page shows for an active vehicle. */
  datatype VehicleMetrics = VehicleMetrics(
    active: Active,
    directFixed: real,
    directVariable: real,
    directFixedShare: real,
    directVariableShare: real,
    indirectFixedShare: real,
    indirectVariableShare: real,
    totalImputedCosts: real,
    intangibleAmortShare: real,
    tangibleAmortShare: real,
    vehicleAmortization: real,
    totalCosts: real,
    result: real,
    totalVariableCosts: real,
    totalFixedCosts: real,
    breakEvenPoint: Num,
    costPerKmFixed: real,
    costPerKmVariable: real)

  /**
   * One vehicle's figures: its routed costs, its shares of the general
   * direct and indirect pools and of the two amortisation pools, its own
   * amortisation, and the profitability built on them.
   */
  function MetricsOf(a: Active, yearCosts: seq<Cost>, p: Pools, totalKms: real, totalCoefficients: real): (m: VehicleMetrics)
    ensures m.active == a
    ensures m.directFixed == Routed(yearCosts, a.vehicle.licensePlate, Fijo)
    ensures m.directVariable == Routed(yearCosts, a.vehicle.licensePlate, Variable)
    ensures m.directFixedShare == Share(p.generalDirectFixed, a.annualCoefficient, totalCoefficients)
    ensures m.directVariableShare == Share(p.generalDirectVariable, a.annualKms, totalKms)
    ensures m.indirectFixedShare == Share(p.indirectFixed, a.annualCoefficient, totalCoefficients)
    ensures m.indirectVariableShare == Share(p.indirectVariable, a.annualKms, totalKms)
    ensures m.intangibleAmortShare == Share(p.intangibleAmort, a.annualCoefficient, totalCoefficients)
    ensures m.tangibleAmortShare == Share(p.tangibleAmort, a.annualCoefficient, totalCoefficients)
    ensures m.totalCosts == m.totalFixedCosts + m.totalVariableCosts
    ensures m.result == a.income - m.totalCosts
    ensures m.breakEvenPoint == BreakEvenPoint(m.totalFixedCosts, m.totalVariableCosts, a.income)
    ensures a.annualKms <= 0.0 ==> m.costPerKmFixed == 0.0 && m.costPerKmVariable == 0.0
    ensures a.annualKms > 0.0 ==> (m.costPerKmFixed + m.costPerKmVariable) * a.annualKms == m.totalCosts
  {
    var plate := a.vehicle.licensePlate;
    var directFixed := Routed(yearCosts, plate, Fijo);
    var directVariable := Routed(yearCosts, plate, Variable);
    var directFixedShare := PoolShare(p.generalDirectFixed, a.annualCoefficient, totalCoefficients);
    var directVariableShare := PoolShare(p.generalDirectVariable, a.annualKms, totalKms);
    var indirectFixedShare := PoolShare(p.indirectFixed, a.annualCoefficient, totalCoefficients);
    var indirectVariableShare := PoolShare(p.indirectVariable, a.annualKms, totalKms);
    var totalImputedCosts := directFixed + directVariable + directFixedShare + directVariableShare
                             + indirectFixedShare + indirectVariableShare;
    var intangibleAmortShare := PoolShare(p.intangibleAmort, a.annualCoefficient, totalCoefficients);
    var tangibleAmortShare := PoolShare(p.tangibleAmort, a.annualCoefficient, totalCoefficients);
    var vehicleAmortization := a.vehicle.annualAmortization * a.annualCoefficient;
    var totalCosts := totalImputedCosts + intangibleAmortShare + tangibleAmortShare + vehicleAmortization;
    var totalVariableCosts := directVariable + directVariableShare + indirectVariableShare;
    var totalFixedCosts := directFixed + directFixedShare + indirectFixedShare + intangibleAmortShare
                           + tangibleAmortShare + vehicleAmortization;
    var costPerKmFixed := PerUnit(totalFixedCosts, a.annualKms);
    var costPerKmVariable := PerUnit(totalVariableCosts, a.annualKms);
    VehicleMetrics(a, directFixed, directVariable, directFixedShare, directVariableShare,
                   indirectFixedShare, indirectVariableShare, totalImputedCosts, intangibleAmortShare,
                   tangibleAmortShare, vehicleAmortization, totalCosts, a.income - totalCosts,
                   totalVariableCosts, totalFixedCosts,
                   BreakEvenPoint(totalFixedCosts, totalVariableCosts, a.income), costPerKmFixed, costPerKmVariable)
  }

  function MetricsAll(actives: seq<Active>, yearCosts: seq<Cost>, p: Pools): (ms: seq<VehicleMetrics>)
    ensures |ms| == |actives|
  {
    var totalKms := SumBy(actives, AnnualKms);
    var totalCoefficients := SumBy(actives, Coefficient);
    MapSeq(actives, (a: Active) => MetricsOf(a, yearCosts, p, totalKms, totalCoefficients))
  }

  // ---------------------------------------------------------------------
  // Fleet totals

  /** The keys of a vehicle's entry whose value is a number. */
  datatype Key =
    | AssignedNumber | AcquisitionValue | SaleValue | AnnualAmortization | Seats | Wheels
    | AnnualCoefficient | AnnualKmsKey | IncomeKey
    | DirectFixed | DirectVariable | DirectFixedShare | DirectVariableShare
    | IndirectFixedShare | IndirectVariableShare | TotalImputedCosts
    | IntangibleAmortShare | TangibleAmortShare | VehicleAmortization
    | TotalCosts | Result | TotalVariableCosts | TotalFixedCosts
    | BreakEvenPointKey | CostPerKmFixed | CostPerKmVariable

  /** Every key, in the order of the entry's fields. */
  const AllKeys: seq<Key> := [
    AssignedNumber, AcquisitionValue, SaleValue, AnnualAmortization, Seats, Wheels,
    AnnualCoefficient, AnnualKmsKey, IncomeKey,
    DirectFixed, DirectVariable, DirectFixedShare, DirectVariableShare,
    IndirectFixedShare, IndirectVariableShare, TotalImputedCosts,
    IntangibleAmortShare, TangibleAmortShare, VehicleAmortization,
    TotalCosts, Result, TotalVariableCosts, TotalFixedCosts,
    BreakEvenPointKey, CostPerKmFixed, CostPerKmVariable]

  /**
   * The value of a key in a vehicle's entry when it is a number
   * (`typeof v[key] === 'number'`); an unsold vehicle has no sale value.
   */
  function FieldValue(m: VehicleMetrics, k: Key): (r: Option<Num>)
    ensures k != SaleValue ==> r.Some?
    ensures k != BreakEvenPointKey && r.Some? ==> r.value.Finite?
  {
    var v := m.active.vehicle;
    match k
    case AssignedNumber => Some(Finite(v.assignedNumber as real))
    case AcquisitionValue => Some(Finite(v.acquisitionValue))
    case SaleValue => if v.saleValue.Some? then Some(Finite(v.saleValue.value)) else None
    case AnnualAmortization => Some(Finite(v.annualAmortization))
    case Seats => Some(Finite(v.seats as real))
    case Wheels => Some(Finite(v.wheels as real))
    case AnnualCoefficient => Some(Finite(m.active.annualCoefficient))
    case AnnualKmsKey => Some(Finite(m.active.annualKms))
    case IncomeKey => Some(Finite(m.active.income))
    case DirectFixed => Some(Finite(m.directFixed))
    case DirectVariable => Some(Finite(m.directVariable))
    case DirectFixedShare => Some(Finite(m.directFixedShare))
    case DirectVariableShare => Some(Finite(m.directVariableShare))
    case IndirectFixedShare => Some(Finite(m.indirectFixedShare))
    case IndirectVariableShare => Some(Finite(m.indirectVariableShare))
    case TotalImputedCosts => Some(Finite(m.totalImputedCosts))
    case IntangibleAmortShare => Some(Finite(m.intangibleAmortShare))
    case TangibleAmortShare => Some(Finite(m.tangibleAmortShare))
    case VehicleAmortization => Some(Finite(m.vehicleAmortization))
    case TotalCosts => Some(Finite(m.totalCosts))
    case Result => Some(Finite(m.result))
    case TotalVariableCosts => Some(Finite(m.totalVariableCosts))
    case TotalFixedCosts => Some(Finite(m.totalFixedCosts))
    case BreakEvenPointKey => Some(m.breakEvenPoint)
    case CostPerKmFixed => Some(Finite(m.costPerKmFixed))
    case CostPerKmVariable => Some(Finite(m.costPerKmVariable))
  }

  /**
   * Number addition: `NaN` absorbs everything, two infinities of opposite
   * signs give `NaN`, otherwise an infinity absorbs the finite numbers.
   */
  function Plus(a: Num, b: Num): (r: Num)
    ensures r.Finite? <==> a.Finite? && b.Finite?
    ensures r.Finite? ==> r.v == a.v + b.v
    ensures r.NaN? <==> a.NaN? || b.NaN? || (a.Inf? && b.Inf? && a.positive != b.positive)
    ensures r.Inf? && a.Inf? ==> r == a
    ensures r.Inf? && b.Inf? ==> r == b
  {
    if a.NaN? || b.NaN? then NaN
    else if a.Inf? && b.Inf? then (if a.positive == b.positive then a else NaN)
    else if a.Inf? then a
    else if b.Inf? then b
    else Finite(a.v + b.v)
  }

  /** `totals[key] || 0`: an absent or `NaN` running total reads as 0. */
  function OrZeroNum(e: Option<Num>): (r: Num)
    ensures e.None? || e.value.NaN? ==> r == Finite(0.0)
    ensures e.Some? && !e.value.NaN? ==> r == e.value
  {
    if e.Some? && !e.value.NaN? then e.value else Finite(0.0)
  }

  /** `totals[key] = (totals[key] || 0) + value` when the value is a number. */
  function AddKey(t: map<Key, Num>, k: Key, value: Option<Num>): map<Key, Num> {
    if value.Some? then t[k := Plus(OrZeroNum(Entry(t, k)), value.value)] else t
  }

  /** One vehicle's entry added key by key, for the given keys in order. */
  function AddVehicle(t: map<Key, Num>, m: VehicleMetrics, keys: seq<Key>): map<Key, Num>
    decreases |keys|
  {
    if keys == [] then t
    else
      var k := keys[|keys| - 1];
      AddKey(AddVehicle(t, m, keys[..|keys| - 1]), k, FieldValue(m, k))
  }

  /** The totals after each vehicle in turn. */
  function KeyTotals(ms: seq<VehicleMetrics>): map<Key, Num>
    decreases |ms|
  {
    if ms == [] then map[] else AddVehicle(KeyTotals(ms[..|ms| - 1]), ms[|ms| - 1], AllKeys)
  }

  /** `fleetTotals`: the `reduce` over the vehicles with the inner loop over each entry's keys. */
  method FleetTotals(ms: seq<VehicleMetrics>) returns (totals: map<Key, Num>)
    ensures totals == KeyTotals(ms)
  {
    totals := map[];
    for i := 0 to |ms|
      invariant totals == KeyTotals(ms[..i])
    {
      assert ms[..i + 1][..i] == ms[..i];
      totals := AddVehicleValues(totals, ms[i]);
    }
    assert ms[..|ms|] == ms;
  }

  /** The inner loop of `fleetTotals`: one vehicle's entry, key by key. */
  method AddVehicleValues(before: map<Key, Num>, m: VehicleMetrics) returns (totals: map<Key, Num>)
    ensures totals == AddVehicle(before, m, AllKeys)
  {
    totals := before;
    for j := 0 to |AllKeys|
      invariant totals == AddVehicle(before, m, AllKeys[..j])
    {
      AddVehicleNext(before, m, AllKeys, j);
      var k := AllKeys[j];
      var value := FieldValue(m, k);
      if value.Some? {
        var current := if k in totals && !totals[k].NaN? then totals[k] else Finite(0.0);
        assert current == OrZeroNum(Entry(totals, k));
        totals := totals[k := Plus(current, value.value)];
      }
    }
    assert AllKeys[..|AllKeys|] == AllKeys;
  }

  /** Adding the keys up to `keys[j]` is adding those before it, then `keys[j]`. */
  lemma AddVehicleNext(t: map<Key, Num>, m: VehicleMetrics, keys: seq<Key>, j: nat)
    requires j < |keys|
    ensures AddVehicle(t, m, keys[..j + 1]) == AddKey(AddVehicle(t, m, keys[..j]), keys[j], FieldValue(m, keys[j]))
  {
    assert keys[..j + 1][..j] == keys[..j];
  }

  /** The entry of a key in the totals, `None` when the key is absent. */
  function Entry(t: map<Key, Num>, k: Key): Option<Num> {
    if k in t then Some(t[k]) else None
  }

  /** What adding one value does to a key's entry. */
  function Step(e: Option<Num>, value: Option<Num>): Option<Num> {
    if value.Some? then Some(Plus(OrZeroNum(e), value.value)) else e
  }

  /** The values of one key, vehicle by vehicle, folded with `Step`. */
  function Fold(ms: seq<VehicleMetrics>, f: VehicleMetrics -> Option<Num>): Option<Num>
    decreases |ms|
  {
    if ms == [] then None else Step(Fold(ms[..|ms| - 1], f), f(ms[|ms| - 1]))
  }

  function FieldOf(k: Key): VehicleMetrics -> Option<Num> {
    (m: VehicleMetrics) => FieldValue(m, k)
  }

  /** The entry of one key, vehicle by vehicle. */
  function KeyTotal(ms: seq<VehicleMetrics>, k: Key): Option<Num> {
    Fold(ms, FieldOf(k))
  }

  /** A value when it is a finite number, else 0. */
  function FiniteOrZero(f: VehicleMetrics -> Option<Num>): VehicleMetrics -> real {
    (m: VehicleMetrics) => if f(m).Some? && f(m).value.Finite? then f(m).value.v else 0.0
  }

  /** A key's value in a vehicle's entry when it is a finite number, else 0. */
  function Column(k: Key): VehicleMetrics -> real {
    FiniteOrZero(FieldOf(k))
  }

  /** The position of a key in `AllKeys`. */
  function KeyIndex(k: Key): nat {
    match k
    case AssignedNumber => 0
    case AcquisitionValue => 1
    case SaleValue => 2
    case AnnualAmortization => 3
    case Seats => 4
    case Wheels => 5
    case AnnualCoefficient => 6
    case AnnualKmsKey => 7
    case IncomeKey => 8
    case DirectFixed => 9
    case DirectVariable => 10
    case DirectFixedShare => 11
    case DirectVariableShare => 12
    case IndirectFixedShare => 13
    case IndirectVariableShare => 14
    case TotalImputedCosts => 15
    case IntangibleAmortShare => 16
    case TangibleAmortShare => 17
    case VehicleAmortization => 18
    case TotalCosts => 19
    case Result => 20
    case TotalVariableCosts => 21
    case TotalFixedCosts => 22
    case BreakEvenPointKey => 23
    case CostPerKmFixed => 24
    case CostPerKmVariable => 25
  }

  /** Every key is listed, once. */
  lemma AllKeysDistinct()
    ensures forall k :: k in AllKeys
    ensures NoDuplicates(AllKeys)
  {
    AllKeysIndexed();
    forall k ensures k in AllKeys {
      KeyListed(k);
    }
  }

  lemma AllKeysIndexed()
    ensures forall i :: 0 <= i < |AllKeys| ==> KeyIndex(AllKeys[i]) == i
  {
  }

  lemma KeyListed(k: Key)
    ensures KeyIndex(k) < |AllKeys| && AllKeys[KeyIndex(k)] == k
  {
  }

  /** Adding a vehicle's values over distinct keys steps each of those keys once and leaves the others. */
  lemma {:induction false} AddVehicleEntry(t: map<Key, Num>, m: VehicleMetrics, keys: seq<Key>, k: Key)
    requires NoDuplicates(keys)
    ensures Entry(AddVehicle(t, m, keys), k) == if k in keys then Step(Entry(t, k), FieldValue(m, k)) else Entry(t, k)
    decreases |keys|
  {
    if keys != [] {
      var init := keys[..|keys| - 1];
      var last := keys[|keys| - 1];
      AddVehicleEntry(t, m, init, k);
      assert k in keys <==> k in init || k == last;
      if k == last {
        assert k !in init;
      }
    }
  }

  /** The totals map holds, for each key, the per-key fold. */
  lemma {:induction false} KeyTotalsEntry(ms: seq<VehicleMetrics>, k: Key)
    ensures Entry(KeyTotals(ms), k) == KeyTotal(ms, k)
    decreases |ms|
  {
    if ms != [] {
      KeyTotalsEntry(ms[..|ms| - 1], k);
      AllKeysDistinct();
      AddVehicleEntry(KeyTotals(ms[..|ms| - 1]), ms[|ms| - 1], AllKeys, k);
    }
  }

  /** A key has a total exactly when some vehicle has a number there. */
  lemma KeyTotalPresent(ms: seq<VehicleMetrics>, k: Key)
    ensures KeyTotal(ms, k).Some? <==> exists i :: 0 <= i < |ms| && FieldValue(ms[i], k).Some?
  {
    FoldPresent(ms, FieldOf(k));
  }

  lemma {:induction false} FoldPresent(ms: seq<VehicleMetrics>, f: VehicleMetrics -> Option<Num>)
    ensures Fold(ms, f).Some? <==> exists i :: 0 <= i < |ms| && f(ms[i]).Some?
    decreases |ms|
  {
    if ms != [] {
      var init := ms[..|ms| - 1];
      FoldPresent(init, f);
      if Fold(init, f).Some? {
        var i :| 0 <= i < |init| && f(init[i]).Some?;
        assert ms[i] == init[i];
      }
      if exists i :: 0 <= i < |ms| && f(ms[i]).Some? {
        var i :| 0 <= i < |ms| && f(ms[i]).Some?;
        if i < |init| {
          assert f(init[i]).Some?;
        }
      }
    }
  }

  /** A value that is absent or a finite number. */
  predicate AbsentOrFinite(o: Option<Num>) {
    o.None? || o.value.Finite?
  }

  /** With every value finite, the total is the column sum. */
  lemma KeyTotalFinite(ms: seq<VehicleMetrics>, k: Key)
    requires forall i :: 0 <= i < |ms| ==> AbsentOrFinite(FieldValue(ms[i], k))
    ensures KeyTotal(ms, k).None? || KeyTotal(ms, k) == Some(Finite(SumBy(ms, Column(k))))
    ensures KeyTotal(ms, k).None? ==> SumBy(ms, Column(k)) == 0.0
  {
    FoldFinite(ms, FieldOf(k));
  }

  lemma {:induction false} FoldFinite(ms: seq<VehicleMetrics>, f: VehicleMetrics -> Option<Num>)
    requires forall i :: 0 <= i < |ms| ==> AbsentOrFinite(f(ms[i]))
    ensures Fold(ms, f).None? || Fold(ms, f) == Some(Finite(SumBy(ms, FiniteOrZero(f))))
    ensures Fold(ms, f).None? ==> SumBy(ms, FiniteOrZero(f)) == 0.0
    decreases |ms|
  {
    if ms != [] {
      var init := ms[..|ms| - 1];
      var last := ms[|ms| - 1];
      assert forall i :: 0 <= i < |init| ==> init[i] == ms[i];
      FoldFinite(init, f);
      assert AbsentOrFinite(f(last));
      assert SumBy(ms, FiniteOrZero(f)) == SumBy(init, FiniteOrZero(f)) + FiniteOrZero(f)(last);
      assert Fold(ms, f) == Step(Fold(init, f), f(last));
    }
  }

  /**
   * `NaN || 0` is 0, so a `NaN` running total is forgotten: once the total
   * of the first `i` vehicles is `NaN`, the fleet total is that of the
   * vehicles after them as soon as one of those has a number, and stays
   * `NaN` when none has.
   */
  lemma KeyTotalForgetsNaN(ms: seq<VehicleMetrics>, k: Key, i: nat)
    requires i <= |ms| && KeyTotal(ms[..i], k) == Some(NaN)
    ensures KeyTotal(ms[i..], k).Some? ==> KeyTotal(ms, k) == KeyTotal(ms[i..], k)
    ensures KeyTotal(ms[i..], k).None? ==> KeyTotal(ms, k) == Some(NaN)
  {
    FoldForgetsNaN(ms, FieldOf(k), i);
  }

  lemma {:induction false} FoldForgetsNaN(ms: seq<VehicleMetrics>, f: VehicleMetrics -> Option<Num>, i: nat)
    requires i <= |ms| && (Fold(ms[..i], f).None? || Fold(ms[..i], f) == Some(NaN))
    ensures Fold(ms[i..], f).Some? ==> Fold(ms, f) == Fold(ms[i..], f)
    ensures Fold(ms[i..], f).None? ==> Fold(ms, f) == Fold(ms[..i], f)
    decreases |ms|
  {
    if |ms| == i {
      assert ms[..i] == ms;
      assert ms[i..] == [];
    } else {
      var init := ms[..|ms| - 1];
      assert init[..i] == ms[..i];
      FoldForgetsNaN(init, f, i);
      assert ms[i..][..|ms[i..]| - 1] == init[i..];
      assert ms[i..][|ms[i..]| - 1] == ms[|ms| - 1];
    }
  }

  /**
   * With every value finite or one same infinity, the fleet total is that
   * infinity as soon as one vehicle's value is.
   */
  lemma KeyTotalInfinite(ms: seq<VehicleMetrics>, k: Key, p: bool)
    requires forall i :: 0 <= i < |ms| ==> AbsentOrFinite(FieldValue(ms[i], k)) || FieldValue(ms[i], k) == Some(Inf(p))
    ensures (exists i :: 0 <= i < |ms| && FieldValue(ms[i], k) == Some(Inf(p))) ==> KeyTotal(ms, k) == Some(Inf(p))
  {
    FoldInfinite(ms, FieldOf(k), p);
  }

  lemma {:induction false} FoldInfinite(ms: seq<VehicleMetrics>, f: VehicleMetrics -> Option<Num>, p: bool)
    requires forall i :: 0 <= i < |ms| ==> AbsentOrFinite(f(ms[i])) || f(ms[i]) == Some(Inf(p))
    ensures AbsentOrFinite(Fold(ms, f)) || Fold(ms, f) == Some(Inf(p))
    ensures (exists i :: 0 <= i < |ms| && f(ms[i]) == Some(Inf(p))) ==> Fold(ms, f) == Some(Inf(p))
    decreases |ms|
  {
    if ms != [] {
      var init := ms[..|ms| - 1];
      assert forall i :: 0 <= i < |init| ==> init[i] == ms[i];
      FoldInfinite(init, f, p);
      if exists i :: 0 <= i < |ms| && f(ms[i]) == Some(Inf(p)) {
        var i :| 0 <= i < |ms| && f(ms[i]) == Some(Inf(p));
        if i < |init| {
          assert f(init[i]) == Some(Inf(p));
        }
      }
    }
  }

  /**
   * The fleet totals row: a key is present exactly when some vehicle has a
   * number there; its value is the column sum when every vehicle's value
   * is finite, and it is not finite only when some vehicle's value is not.
   */
  lemma FleetTotalsSpec(ms: seq<VehicleMetrics>, k: Key)
    ensures k in KeyTotals(ms) <==> exists i :: 0 <= i < |ms| && FieldValue(ms[i], k).Some?
    ensures k in KeyTotals(ms) && (forall i :: 0 <= i < |ms| ==> AbsentOrFinite(FieldValue(ms[i], k)))
      ==> KeyTotals(ms)[k] == Finite(SumBy(ms, Column(k)))
    ensures k in KeyTotals(ms) && !KeyTotals(ms)[k].Finite?
      ==> exists i :: 0 <= i < |ms| && !AbsentOrFinite(FieldValue(ms[i], k))
  {
    KeyTotalsEntry(ms, k);
    KeyTotalPresent(ms, k);
    if forall i :: 0 <= i < |ms| ==> AbsentOrFinite(FieldValue(ms[i], k)) {
      KeyTotalFinite(ms, k);
    }
  }

  // ---------------------------------------------------------------------
  // The page

  /** `analysisData`: the vehicles' figures and the fleet totals. */
  datatype Report = Report(vehicleMetrics: seq<VehicleMetrics>, fleetTotals: map<Key, Num>)

  /**
   * The analysis of a year over the classified costs: no vehicle active
   * gives an empty report; otherwise every active vehicle's figures and
   * their totals.
   */
  function AnalysisData(vehicles: seq<Vehicle>, incomeData: seq<YearlyIncome>, costs: seq<Cost>,
                        accounts: seq<Account>, year: int, native: string -> Option<Date>): (r: Report)
    ensures |r.vehicleMetrics| == |ActiveVehicles(vehicles, I.YearRecord(incomeData, year), year, native)|
    ensures r.fleetTotals == KeyTotals(r.vehicleMetrics)
  {
    var yearly := I.YearRecord(incomeData, year);
    var yearCosts := OfYear(costs, year);
    var actives := ActiveVehicles(vehicles, yearly, year, native);
    if |actives| == 0 then Report([], map[])
    else
      var ms := MetricsAll(actives, yearCosts, PoolsOf(yearCosts, accounts, year));
      Report(ms, KeyTotals(ms))
  }

  // ---------------------------------------------------------------------
  // Conservation

  /** The active vehicles of a year always have a positive total coefficient. */
  lemma {:induction false} CoefficientsPositive(actives: seq<Active>)
    requires |actives| > 0
    requires forall i :: 0 <= i < |actives| ==> actives[i].annualCoefficient >= 1.0 / 12.0
    ensures SumBy(actives, Coefficient) > 0.0
  {
    SumByNonNegative(actives[..|actives| - 1], Coefficient);
  }

  lemma ActivesHaveTime(vs: seq<Vehicle>, yearly: Option<YearlyIncome>, year: int, native: string -> Option<Date>)
    requires |ActiveVehicles(vs, yearly, year, native)| > 0
    ensures SumBy(ActiveVehicles(vs, yearly, year, native), Coefficient) > 0.0
  {
    CoefficientsPositive(ActiveVehicles(vs, yearly, year, native));
  }

  // Columns of the vehicles' figures.
  function MDirectFixedShare(m: VehicleMetrics): real { m.directFixedShare }
  function MDirectVariableShare(m: VehicleMetrics): real { m.directVariableShare }
  function MIndirectFixedShare(m: VehicleMetrics): real { m.indirectFixedShare }
  function MIndirectVariableShare(m: VehicleMetrics): real { m.indirectVariableShare }
  function MIntangibleAmortShare(m: VehicleMetrics): real { m.intangibleAmortShare }
  function MTangibleAmortShare(m: VehicleMetrics): real { m.tangibleAmortShare }

  /** A column of finite values is the column of the field it reads. */
  lemma ColumnIs(ms: seq<VehicleMetrics>, k: Key, g: VehicleMetrics -> real)
    requires forall m :: FieldValue(m, k) == Some(Finite(g(m)))
    ensures SumBy(ms, Column(k)) == SumBy(ms, g)
  {
    SumByCongruent(ms, Column(k), g);
  }

  /** The totals' columns of the shares are the sums of the vehicles' shares. */
  lemma ShareColumns(ms: seq<VehicleMetrics>)
    ensures SumBy(ms, Column(DirectFixedShare)) == SumBy(ms, MDirectFixedShare)
    ensures SumBy(ms, Column(DirectVariableShare)) == SumBy(ms, MDirectVariableShare)
    ensures SumBy(ms, Column(IndirectFixedShare)) == SumBy(ms, MIndirectFixedShare)
    ensures SumBy(ms, Column(IndirectVariableShare)) == SumBy(ms, MIndirectVariableShare)
    ensures SumBy(ms, Column(IntangibleAmortShare)) == SumBy(ms, MIntangibleAmortShare)
    ensures SumBy(ms, Column(TangibleAmortShare)) == SumBy(ms, MTangibleAmortShare)
  {
    ColumnIs(ms, DirectFixedShare, MDirectFixedShare);
    ColumnIs(ms, DirectVariableShare, MDirectVariableShare);
    ColumnIs(ms, IndirectFixedShare, MIndirectFixedShare);
    ColumnIs(ms, IndirectVariableShare, MIndirectVariableShare);
    ColumnIs(ms, IntangibleAmortShare, MIntangibleAmortShare);
    ColumnIs(ms, TangibleAmortShare, MTangibleAmortShare);
  }

  /** A pool shared by time over the vehicles adds up to the pool. */
  lemma TimePoolConserved(actives: seq<Active>, yearCosts: seq<Cost>, p: Pools,
                          pool: real, column: VehicleMetrics -> real)
    requires SumBy(actives, Coefficient) > 0.0
    requires forall a: Active, totalKms: real ::
      column(MetricsOf(a, yearCosts, p, totalKms, SumBy(actives, Coefficient))) == Share(pool, a.annualCoefficient, SumBy(actives, Coefficient))
    ensures SumBy(MetricsAll(actives, yearCosts, p), column) == pool
  {
    var totalKms := SumBy(actives, AnnualKms);
    var total := SumBy(actives, Coefficient);
    var f := (a: Active) => MetricsOf(a, yearCosts, p, totalKms, total);
    var share := (a: Active) => Share(pool, Coefficient(a), total);
    SumByMapSeq(actives, f, column, share);
    Conservation(actives, Coefficient, pool, share);
  }

  /** A pool shared by kilometres over vehicles that drove any adds up to the pool. */
  lemma KmsPoolConserved(actives: seq<Active>, yearCosts: seq<Cost>, p: Pools,
                         pool: real, column: VehicleMetrics -> real)
    requires SumBy(actives, AnnualKms) > 0.0
    requires forall a: Active, totalCoefficients: real ::
      column(MetricsOf(a, yearCosts, p, SumBy(actives, AnnualKms), totalCoefficients)) == Share(pool, a.annualKms, SumBy(actives, AnnualKms))
    ensures SumBy(MetricsAll(actives, yearCosts, p), column) == pool
  {
    var totalKms := SumBy(actives, AnnualKms);
    var total := SumBy(actives, Coefficient);
    var f := (a: Active) => MetricsOf(a, yearCosts, p, totalKms, total);
    var share := (a: Active) => Share(pool, AnnualKms(a), totalKms);
    SumByMapSeq(actives, f, column, share);
    Conservation(actives, AnnualKms, pool, share);
  }

  /**
   * Conservation of the pools shared by time: the general direct fixed
   * costs, the indirect fixed costs and both amortisation pools are shared
   * out completely over the vehicles.
   */
  lemma FixedSharesConserved(actives: seq<Active>, yearCosts: seq<Cost>, p: Pools)
    requires SumBy(actives, Coefficient) > 0.0
    ensures SumBy(MetricsAll(actives, yearCosts, p), MDirectFixedShare) == p.generalDirectFixed
    ensures SumBy(MetricsAll(actives, yearCosts, p), MIndirectFixedShare) == p.indirectFixed
    ensures SumBy(MetricsAll(actives, yearCosts, p), MIntangibleAmortShare) == p.intangibleAmort
    ensures SumBy(MetricsAll(actives, yearCosts, p), MTangibleAmortShare) == p.tangibleAmort
  {
    TimePoolConserved(actives, yearCosts, p, p.generalDirectFixed, MDirectFixedShare);
    TimePoolConserved(actives, yearCosts, p, p.indirectFixed, MIndirectFixedShare);
    TimePoolConserved(actives, yearCosts, p, p.intangibleAmort, MIntangibleAmortShare);
    TimePoolConserved(actives, yearCosts, p, p.tangibleAmort, MTangibleAmortShare);
  }

  /**
   * Conservation of the pools shared by kilometres, once any kilometres
   * were driven: the general direct and the indirect variable costs.
   */
  lemma VariableSharesConserved(actives: seq<Active>, yearCosts: seq<Cost>, p: Pools)
    requires SumBy(actives, AnnualKms) > 0.0
    ensures SumBy(MetricsAll(actives, yearCosts, p), MDirectVariableShare) == p.generalDirectVariable
    ensures SumBy(MetricsAll(actives, yearCosts, p), MIndirectVariableShare) == p.indirectVariable
  {
    KmsPoolConserved(actives, yearCosts, p, p.generalDirectVariable, MDirectVariableShare);
    KmsPoolConserved(actives, yearCosts, p, p.indirectVariable, MIndirectVariableShare);
  }

  /** Without kilometres every variable share is 0: the variable pools reach no vehicle. */
  lemma VariableSharesLost(actives: seq<Active>, yearCosts: seq<Cost>, p: Pools)
    requires SumBy(actives, AnnualKms) <= 0.0
    ensures SumBy(MetricsAll(actives, yearCosts, p), MDirectVariableShare) == 0.0
    ensures SumBy(MetricsAll(actives, yearCosts, p), MIndirectVariableShare) == 0.0
  {
    var totalKms := SumBy(actives, AnnualKms);
    var total := SumBy(actives, Coefficient);
    var f := (a: Active) => MetricsOf(a, yearCosts, p, totalKms, total);
    var dv := (a: Active) => Share(p.generalDirectVariable, AnnualKms(a), totalKms);
    var iv := (a: Active) => Share(p.indirectVariable, AnnualKms(a), totalKms);
    SumByMapSeq(actives, f, MDirectVariableShare, dv);
    SumByMapSeq(actives, f, MIndirectVariableShare, iv);
    NothingApportioned(actives, AnnualKms, p.generalDirectVariable, dv);
    NothingApportioned(actives, AnnualKms, p.indirectVariable, iv);
  }

  /** The totals row holds the finite value `v` under key `k`. */
  predicate TotalIs(t: map<Key, Num>, k: Key, v: real) {
    k in t && t[k] == Finite(v)
  }

  function MAnnualKms(m: VehicleMetrics): real { m.active.annualKms }

  /** The kilometres column of the figures is the vehicles' kilometres. */
  lemma KmsColumn(actives: seq<Active>, yearCosts: seq<Cost>, p: Pools)
    ensures SumBy(MetricsAll(actives, yearCosts, p), Column(AnnualKmsKey)) == SumBy(actives, AnnualKms)
  {
    var ms := MetricsAll(actives, yearCosts, p);
    var f := (a: Active) => MetricsOf(a, yearCosts, p, SumBy(actives, AnnualKms), SumBy(actives, Coefficient));
    ColumnIs(ms, AnnualKmsKey, MAnnualKms);
    SumByMapSeq(actives, f, MAnnualKms, AnnualKms);
  }

  /** A key every vehicle has as a finite number totals to its column sum. */
  lemma FiniteKeyTotal(ms: seq<VehicleMetrics>, k: Key)
    requires ms != [] && k != SaleValue && k != BreakEvenPointKey
    ensures TotalIs(KeyTotals(ms), k, SumBy(ms, Column(k)))
  {
    assert FieldValue(ms[0], k).Some?;
    FleetTotalsSpec(ms, k);
  }

  /** The totals row carries each pool shared by time exactly. */
  lemma TotalsConserveTimePools(actives: seq<Active>, yearCosts: seq<Cost>, p: Pools)
    requires actives != [] && SumBy(actives, Coefficient) > 0.0
    ensures var t := KeyTotals(MetricsAll(actives, yearCosts, p));
            TotalIs(t, DirectFixedShare, p.generalDirectFixed)
            && TotalIs(t, IndirectFixedShare, p.indirectFixed)
            && TotalIs(t, IntangibleAmortShare, p.intangibleAmort)
            && TotalIs(t, TangibleAmortShare, p.tangibleAmort)
  {
    var ms := MetricsAll(actives, yearCosts, p);
    FixedSharesConserved(actives, yearCosts, p);
    ShareColumns(ms);
    FiniteKeyTotal(ms, DirectFixedShare);
    FiniteKeyTotal(ms, IndirectFixedShare);
    FiniteKeyTotal(ms, IntangibleAmortShare);
    FiniteKeyTotal(ms, TangibleAmortShare);
  }

  /** With kilometres driven, the totals row carries each pool shared by kilometres exactly. */
  lemma TotalsConserveKmsPools(actives: seq<Active>, yearCosts: seq<Cost>, p: Pools)
    requires actives != []
    ensures var t := KeyTotals(MetricsAll(actives, yearCosts, p));
            TotalIs(t, AnnualKmsKey, SumBy(actives, AnnualKms))
    ensures var t := KeyTotals(MetricsAll(actives, yearCosts, p));
            SumBy(actives, AnnualKms) > 0.0 ==>
              TotalIs(t, DirectVariableShare, p.generalDirectVariable)
              && TotalIs(t, IndirectVariableShare, p.indirectVariable)
  {
    var ms := MetricsAll(actives, yearCosts, p);
    KmsColumn(actives, yearCosts, p);
    ShareColumns(ms);
    FiniteKeyTotal(ms, AnnualKmsKey);
    FiniteKeyTotal(ms, DirectVariableShare);
    FiniteKeyTotal(ms, IndirectVariableShare);
    if SumBy(actives, AnnualKms) > 0.0 {
      VariableSharesConserved(actives, yearCosts, p);
    }
  }

  /**
   * On the page's own report: when a vehicle is active, the totals row
   * carries each pool shared by time exactly, and, once kilometres were
   * driven, each pool shared by kilometres too.
   */
  lemma ReportConservesPools(vehicles: seq<Vehicle>, incomeData: seq<YearlyIncome>, costs: seq<Cost>,
                             accounts: seq<Account>, year: int, native: string -> Option<Date>)
    requires AnalysisData(vehicles, incomeData, costs, accounts, year, native).vehicleMetrics != []
    ensures var t := AnalysisData(vehicles, incomeData, costs, accounts, year, native).fleetTotals;
            var p := PoolsOf(OfYear(costs, year), accounts, year);
            TotalIs(t, DirectFixedShare, p.generalDirectFixed)
            && TotalIs(t, IndirectFixedShare, p.indirectFixed)
            && TotalIs(t, IntangibleAmortShare, p.intangibleAmort)
            && TotalIs(t, TangibleAmortShare, p.tangibleAmort)
    ensures var t := AnalysisData(vehicles, incomeData, costs, accounts, year, native).fleetTotals;
            var p := PoolsOf(OfYear(costs, year), accounts, year);
            AnnualKmsKey in t && t[AnnualKmsKey].Finite? && (t[AnnualKmsKey].v > 0.0 ==>
              TotalIs(t, DirectVariableShare, p.generalDirectVariable)
              && TotalIs(t, IndirectVariableShare, p.indirectVariable))
  {
    var yearly := I.YearRecord(incomeData, year);
    var yearCosts := OfYear(costs, year);
    var actives := ActiveVehicles(vehicles, yearly, year, native);
    var p := PoolsOf(yearCosts, accounts, year);
    ActivesHaveTime(vehicles, yearly, year, native);
    TotalsConserveTimePools(actives, yearCosts, p);
    TotalsConserveKmsPools(actives, yearCosts, p);
  }

  // ---------------------------------------------------------------------
  // Routing

  /** One more cost adds its amount to a filtered sum exactly when it passes the filter. */
  lemma SumFilterSnoc(costs: seq<Cost>, c: Cost, p: Cost -> bool)
    ensures SumBy(Filter(costs + [c], p), Amount) == SumBy(Filter(costs, p), Amount) + (if p(c) then c.amount else 0.0)
  {
    assert (costs + [c])[..|costs|] == costs;
    var f := Filter(costs, p);
    if p(c) {
      assert (f + [c])[..|f|] == f;
    }
  }

  /**
   * A cost is charged to a vehicle twice over when it is indirect and
   * routed to its plate: wholly to that vehicle, and into the indirect
   * pool that every vehicle shares.
   */
  lemma RoutedIndirectCountedTwice(yearCosts: seq<Cost>, c: Cost)
    requires c.costCenter == Indirecto
    ensures Routed(yearCosts + [c], c.distribution, c.nature) == Routed(yearCosts, c.distribution, c.nature) + c.amount
    ensures Bucket(yearCosts + [c], Indirecto, c.nature) == Bucket(yearCosts, Indirecto, c.nature) + c.amount
  {
    SumFilterSnoc(yearCosts, c, (x: Cost) => x.distribution == c.distribution && x.nature == c.nature);
    SumFilterSnoc(yearCosts, c, (x: Cost) => x.costCenter == Indirecto && x.nature == c.nature);
  }

  /** A direct cost that is not "General" leaves the pools as they are. */
  lemma UnroutedPoolsUnchanged(yearCosts: seq<Cost>, c: Cost, accounts: seq<Account>, year: int)
    requires c.costCenter == Directo && c.distribution != "General"
    ensures PoolsOf(yearCosts + [c], accounts, year) == PoolsOf(yearCosts, accounts, year)
  {
    SumFilterSnoc(yearCosts, c, (x: Cost) => x.costCenter == Directo && x.nature == Fijo && x.distribution == "General");
    SumFilterSnoc(yearCosts, c, (x: Cost) => x.costCenter == Directo && x.nature == Variable && x.distribution == "General");
    SumFilterSnoc(yearCosts, c, (x: Cost) => x.costCenter == Indirecto && x.nature == Fijo);
    SumFilterSnoc(yearCosts, c, (x: Cost) => x.costCenter == Indirecto && x.nature == Variable);
  }

  /** A cost routed elsewhere leaves a plate's routed costs as they are. */
  lemma OtherPlateUnchanged(yearCosts: seq<Cost>, c: Cost, plate: string, nature: Nature)
    requires c.distribution != plate
    ensures Routed(yearCosts + [c], plate, nature) == Routed(yearCosts, plate, nature)
  {
    SumFilterSnoc(yearCosts, c, (x: Cost) => x.distribution == plate && x.nature == nature);
  }

  /**
   * A direct cost routed to a label that is neither "General" nor the
   * plate of an active vehicle reaches no vehicle: every figure is the
   * same as without it.
   */
  lemma UnroutedDirectDropped(actives: seq<Active>, yearCosts: seq<Cost>, c: Cost, accounts: seq<Account>, year: int)
    requires c.costCenter == Directo && c.distribution != "General"
    requires forall i :: 0 <= i < |actives| ==> actives[i].vehicle.licensePlate != c.distribution
    ensures MetricsAll(actives, yearCosts + [c], PoolsOf(yearCosts + [c], accounts, year))
         == MetricsAll(actives, yearCosts, PoolsOf(yearCosts, accounts, year))
  {
    var p := PoolsOf(yearCosts, accounts, year);
    UnroutedPoolsUnchanged(yearCosts, c, accounts, year);
    var totalKms := SumBy(actives, AnnualKms);
    var total := SumBy(actives, Coefficient);
    forall i | 0 <= i < |actives|
      ensures MetricsOf(actives[i], yearCosts + [c], p, totalKms, total) == MetricsOf(actives[i], yearCosts, p, totalKms, total)
    {
      OtherPlateMetrics(actives[i], yearCosts, c, p, totalKms, total);
    }
  }

  /** A cost routed to another plate leaves one vehicle's figures as they are. */
  lemma OtherPlateMetrics(a: Active, yearCosts: seq<Cost>, c: Cost, p: Pools, totalKms: real, total: real)
    requires c.distribution != a.vehicle.licensePlate
    ensures MetricsOf(a, yearCosts + [c], p, totalKms, total) == MetricsOf(a, yearCosts, p, totalKms, total)
  {
    OtherPlateUnchanged(yearCosts, c, a.vehicle.licensePlate, Fijo);
    OtherPlateUnchanged(yearCosts, c, a.vehicle.licensePlate, Variable);
  }
}
