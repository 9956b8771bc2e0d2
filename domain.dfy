/**
 * The entities of the dashboard (src/types.ts) and the raw sheet cells the
 * pages read with `Number(x)`, `x || y` and `String(x)`.
 */
module Domain {
  import opened Wrappers
  import opened Text
  import opened Numbers
  import opened Collections

  datatype CostCenter = Directo | Indirecto
  datatype Nature = Fijo | Variable
  datatype DistributionBasis = Kilometros | Meses

  /** A row of the cost classification sheet. */
  datatype Classification = Classification(
    id: int,
    costType: string,
    amount: real,
    costCenter: CostCenter,
    nature: Nature,
    distribution: string,   // "General", "otras empresas", "amortización" or a licence plate
    basis: DistributionBasis)

  /**
   * A vehicle of the fleet. `saleDate` is "" when the vehicle has not been
   * sold; `vehicleType` is the text of the type column ("Normal", "Micro",
   * "Grande", or whatever the sheet holds).
   */
  datatype Vehicle = Vehicle(
    id: string,
    licensePlate: string,
    assignedNumber: int,
    acquisitionDate: string,
    saleDate: string,
    acquisitionValue: real,
    saleValue: Option<real>,
    annualAmortization: real,
    seats: int,
    wheels: int,
    vehicleType: string,
    annualKms: map<int, real>)

  /** An amortisation account; `endDate` is "" when the account has no end. */
  datatype Account = Account(
    id: string,
    name: string,
    totalValue: real,
    startDate: string,
    endDate: string,
    annualAmount: real,
    annualValues: map<int, real>)

  /**
   * One vehicle's income row of a year. The identifiers are kept as the
   * sheet cells they were read from; `income` maps a month (1 .. 12) to
   * an amount.
   */
  datatype VehicleIncome = VehicleIncome(
    id: Cell,
    vehicleId: Cell,
    licensePlate: Cell,
    assignedNumber: Cell,
    income: map<int, real>)

  /** The income of one year: own fleet rows and the subcontracted total per month. */
  datatype YearlyIncome = YearlyIncome(
    year: int,
    ownFleet: seq<VehicleIncome>,
    subcontracted: map<int, real>)

  /**
   * A value read from a spreadsheet cell: absent (`undefined`), a number or
   * a text. `NaN` is never stored in a cell.
   */
  datatype Cell = Missing | Num(n: real) | Text(s: string)

  /** A sheet row: column name to cell. */
  type SheetRow = map<string, Cell>

  /** `row[key]`, `undefined` when the column is absent. */
  function Field(row: SheetRow, key: string): (c: Cell)
    ensures key !in row ==> c == Missing
  {
    if key in row then row[key] else Missing
  }

  /** JavaScript truthiness of a cell: not `undefined`, not 0, not "". */
  predicate Truthy(c: Cell) {
    match c
    case Missing => false
    case Num(v) => v != 0.0
    case Text(s) => s != ""
  }

  /** `a || b`. */
  function Or(a: Cell, b: Cell): (r: Cell)
    ensures Truthy(a) ==> r == a
    ensures !Truthy(a) ==> r == b
  {
    if Truthy(a) then a else b
  }

  /** The first of the columns `keys` whose cell is truthy. */
  function FirstTruthy(row: SheetRow, keys: seq<string>): Option<nat> {
    FindIndex(keys, (k: string) => Truthy(Field(row, k)))
  }

  /** `row[k1] || row[k2] || … || fallback`. */
  function Pick(row: SheetRow, keys: seq<string>, fallback: Cell): (c: Cell)
    ensures FirstTruthy(row, keys).None? ==> c == fallback
    ensures FirstTruthy(row, keys).Some? ==> c == Field(row, keys[FirstTruthy(row, keys).value])
    decreases |keys|
  {
    if keys == [] then fallback else Or(Field(row, keys[0]), Pick(row, keys[1..], fallback))
  }

  /** A row that has none of the columns takes the fallback. */
  lemma PickAbsent(row: SheetRow, keys: seq<string>, fallback: Cell)
    requires forall i :: 0 <= i < |keys| ==> keys[i] !in row
    ensures Pick(row, keys, fallback) == fallback
  {
  }

  /** `Number(c)`; `None` is `NaN`. */
  function JsNumber(c: Cell): (r: Option<real>)
    ensures c.Num? ==> r == Some(c.n)
    ensures c.Missing? ==> r.None?
  {
    match c
    case Missing => None
    case Num(v) => Some(v)
    case Text(s) => NumberOf(s)
  }

  /** `Number(c) || 0`. */
  function NumberOrZero(c: Cell): real {
    OrZero(JsNumber(c))
  }

  /**
   * `Number(c)` used as a year: the whole numbers. A cell that is not a
   * number, or is a fraction, gives `None`.
   */
  function YearOf(c: Cell): (r: Option<int>)
    ensures r.Some? ==> JsNumber(c) == Some(r.value as real)
    ensures r.None? <==> JsNumber(c).None? || JsNumber(c).value.Floor as real != JsNumber(c).value
  {
    var x := JsNumber(c);
    if x.Some? && x.value.Floor as real == x.value then Some(x.value.Floor) else None
  }

  /** `String(c)` / `c.toString()` for a present cell. */
  function CellText(c: Cell): string {
    match c
    case Missing => "undefined"
    case Num(v) => NumberText(v)
    case Text(s) => s
  }

  /** A year written as text reads back as that year. */
  lemma YearOfText(y: nat)
    ensures YearOf(Text(NatToString(y))) == Some(y)
  {
    NumberOfNatToString(y);
  }
}
