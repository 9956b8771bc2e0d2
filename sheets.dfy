/**
 * The spreadsheet client (src/lib/googleSheetsApi.ts): the 30-second
 * response cache, the mapping of per-year maps to the `kms_YYYY` /
 * `value_YYYY` columns and back, and the grouping of monthly income rows
 * into one record per year.
 *
 * The HTTP requests are outside the model: what a request returns is a
 * parameter.
 */
module Sheets {
  import opened Wrappers
  import opened Text
  import opened Collections
  import opened Domain

  // ---------------------------------------------------------------------
  // Response cache

  /** `CACHE_DURATION`, in milliseconds. */
  const CacheDuration: int := 30000

  /** A cached response and the time it was stored. */
  datatype Entry<D> = Entry(data: D, timestamp: int)

  /** The cache key of a sheet's list request: `list_<sheet>`. */
  function ListKey(sheet: string): string {
    "list_" + sheet
  }

  /** What `getCached(key)` answers at time `now`. */
  function Lookup<D>(entries: map<string, Entry<D>>, key: string, now: int): Option<D> {
    if key in entries && now - entries[key].timestamp < CacheDuration then Some(entries[key].data)
    else None
  }

  /** A stored response is answered for 30 seconds after it was stored... */
  lemma SetThenGet<D>(entries: map<string, Entry<D>>, key: string, data: D, t: int, now: int)
    requires now < t + CacheDuration
    ensures Lookup(entries[key := Entry(data, t)], key, now) == Some(data)
  {
  }

  /** ...and no longer. */
  lemma SetThenExpire<D>(entries: map<string, Entry<D>>, key: string, data: D, t: int, now: int)
    requires now >= t + CacheDuration
    ensures Lookup(entries[key := Entry(data, t)], key, now).None?
  {
  }

  /** Storing under one key does not change what another key answers. */
  lemma SetKeepsOthers<D>(entries: map<string, Entry<D>>, key: string, other: string, data: D, t: int, now: int)
    requires other != key
    ensures Lookup(entries[key := Entry(data, t)], other, now) == Lookup(entries, other, now)
  {
  }

  /** Clearing one sheet forgets its list and nothing else. */
  lemma ClearKeepsOthers<D>(entries: map<string, Entry<D>>, sheet: string, key: string, now: int)
    ensures Lookup(entries - {ListKey(sheet)}, ListKey(sheet), now).None?
    ensures key != ListKey(sheet) ==> Lookup(entries - {ListKey(sheet)}, key, now) == Lookup(entries, key, now)
  {
  }

  /** The module-level `cache` record. */
  class Cache<D> {
    var entries: map<string, Entry<D>>

    constructor()
      ensures entries == map[]
    {
      entries := map[];
    }

    /** `getCached`: the stored data while it is younger than 30 seconds. */
    method GetCached(key: string, now: int) returns (r: Option<D>)
      ensures r.Some? <==> key in entries && now - entries[key].timestamp < CacheDuration
      ensures r.Some? ==> r.value == entries[key].data
      ensures r == Lookup(entries, key, now)
    {
      if key in entries {
        var cached := entries[key];
        if now - cached.timestamp < CacheDuration {
          return Some(cached.data);
        }
      }
      return None;
    }

    /** `setCache`: stores the data with the current time. */
    method SetCache(key: string, data: D, now: int)
      modifies this
      ensures entries == old(entries)[key := Entry(data, now)]
    {
      entries := entries[key := Entry(data, now)];
    }

    /**
     * `clearCache(sheet)`: a named sheet forgets its list; no sheet, or
     * the empty name (which JavaScript treats as no sheet), empties the
     * cache.
     */
    method ClearCache(sheet: Option<string>)
      modifies this
      ensures sheet.Some? && sheet.value != "" ==> entries == old(entries) - {ListKey(sheet.value)}
      ensures sheet.None? || sheet.value == "" ==> entries == map[]
    {
      if sheet.Some? && sheet.value != "" {
        entries := entries - {ListKey(sheet.value)};
      } else {
        entries := map[];
      }
    }

    /**
     * The shape of every `list()` call: a fresh cached answer is returned
     * as is; otherwise the answer of the request (`fetched`, `None` for an
     * error) is returned and, when there is one, stored.
     */
    method List(sheet: string, now: int, fetched: Option<D>) returns (r: Option<D>)
      modifies this
      ensures Lookup(old(entries), ListKey(sheet), now).Some? ==>
        r == Lookup(old(entries), ListKey(sheet), now) && entries == old(entries)
      ensures Lookup(old(entries), ListKey(sheet), now).None? ==> r == fetched
      ensures Lookup(old(entries), ListKey(sheet), now).None? && fetched.Some? ==>
        entries == old(entries)[ListKey(sheet) := Entry(fetched.value, now)]
      ensures fetched.None? ==> entries == old(entries)
    {
      var key := ListKey(sheet);
      var cached := GetCached(key, now);
      if cached.Some? {
        return cached;
      }
      if fetched.Some? {
        SetCache(key, fetched.value, now);
      }
      return fetched;
    }
  }

  // ---------------------------------------------------------------------
  // Per-year columns

  /** The years that have a column in the sheets. */
  const SheetYears: seq<int> := [2023, 2024, 2025, 2026]

  /** The vehicle sheet's kilometre columns, one per year of `SheetYears`. */
  const KmsColumns: seq<string> := ["kms_2023", "kms_2024", "kms_2025", "kms_2026"]

  /** The amortisation sheet's value columns, one per year of `SheetYears`. */
  const ValueColumns: seq<string> := ["value_2023", "value_2024", "value_2025", "value_2026"]

  /** Four distinct column names. */
  predicate YearColumns(cols: seq<string>) {
    |cols| == 4 && forall i, j :: 0 <= i < j < 4 ==> cols[i] != cols[j]
  }

  lemma KmsColumnsDistinct()
    ensures YearColumns(KmsColumns)
  {
    forall i, j | 0 <= i < j < 4 ensures KmsColumns[i] != KmsColumns[j] {
      assert KmsColumns[i][7] != KmsColumns[j][7];
    }
  }

  lemma ValueColumnsDistinct()
    ensures YearColumns(ValueColumns)
  {
    forall i, j | 0 <= i < j < 4 ensures ValueColumns[i] != ValueColumns[j] {
      assert ValueColumns[i][9] != ValueColumns[j][9];
    }
  }

  /**
   * `{ kms_2023: m[2023] || 0, …, kms_2026: m[2026] || 0 }` (and the same
   * with `value_`): the columns written for a per-year map.
   */
  function ToColumns(cols: seq<string>, m: map<int, real>): (row: SheetRow)
    requires YearColumns(cols)
    ensures row.Keys == {cols[0], cols[1], cols[2], cols[3]}
    ensures forall i :: 0 <= i < 4 ==> row[cols[i]] == Num(Get(m, SheetYears[i]))
  {
    map[cols[0] := Num(Get(m, 2023)), cols[1] := Num(Get(m, 2024)),
        cols[2] := Num(Get(m, 2025)), cols[3] := Num(Get(m, 2026))]
  }

  /**
   * `{ 2023: v.kms_2023 || 0, …, 2026: v.kms_2026 || 0 }`: the per-year map
   * read back from a sheet row.
   */
  function FromColumns(cols: seq<string>, row: SheetRow): (m: map<int, real>)
    requires |cols| == 4
    ensures m.Keys == {2023, 2024, 2025, 2026}
    ensures forall i :: 0 <= i < 4 ==> m[SheetYears[i]] == NumberOrZero(Field(row, cols[i]))
  {
    map[2023 := NumberOrZero(Field(row, cols[0])), 2024 := NumberOrZero(Field(row, cols[1])),
        2025 := NumberOrZero(Field(row, cols[2])), 2026 := NumberOrZero(Field(row, cols[3]))]
  }

  /** The four sheet years of a map, a missing year read as 0. */
  function SheetYearsOf(m: map<int, real>): map<int, real> {
    map[2023 := Get(m, 2023), 2024 := Get(m, 2024), 2025 := Get(m, 2025), 2026 := Get(m, 2026)]
  }

  /**
   * Writing a per-year map and listing it back gives the map's values for
   * 2023-2026, with 0 for a missing year; other years are lost.
   */
  lemma ColumnsRoundTrip(cols: seq<string>, m: map<int, real>)
    requires YearColumns(cols)
    ensures FromColumns(cols, ToColumns(cols, m)) == SheetYearsOf(m)
  {
    var row := ToColumns(cols, m);
    var back := FromColumns(cols, row);
    forall i | 0 <= i < 4 ensures back[SheetYears[i]] == Get(m, SheetYears[i]) {
      assert Field(row, cols[i]) == Num(Get(m, SheetYears[i]));
    }
    assert back[2023] == Get(m, 2023) && back[2024] == Get(m, 2024);
    assert back[2025] == Get(m, 2025) && back[2026] == Get(m, 2026);
  }

  /** A map that already holds exactly the four years survives the round trip unchanged. */
  lemma ColumnsRoundTripExact(cols: seq<string>, m: map<int, real>)
    requires YearColumns(cols) && m.Keys == {2023, 2024, 2025, 2026}
    ensures FromColumns(cols, ToColumns(cols, m)) == m
  {
    ColumnsRoundTrip(cols, m);
    var s := SheetYearsOf(m);
    assert forall y :: y in m ==> s[y] == m[y];
  }

  /** Listing numeric columns and writing them back gives the same columns. */
  lemma RowRoundTrip(cols: seq<string>, row: SheetRow)
    requires YearColumns(cols)
    requires forall i :: 0 <= i < 4 ==> Field(row, cols[i]).Num?
    ensures forall i :: 0 <= i < 4 ==> ToColumns(cols, FromColumns(cols, row))[cols[i]] == row[cols[i]]
  {
    var m := FromColumns(cols, row);
    forall i | 0 <= i < 4 ensures ToColumns(cols, m)[cols[i]] == row[cols[i]] {
      assert Get(m, SheetYears[i]) == NumberOrZero(Field(row, cols[i]));
    }
  }

  /**
   * The body of `vehiclesApi.update` / `amortizationApi.update`: the given
   * fields, and when a per-year map is given (`annual_kms` taking
   * precedence over `annualKms`, or `annual_values` over `annualValues`)
   * its four columns in place of the map.
   */
  datatype UpdateData = UpdateData(
    fields: SheetRow,
    camelYears: Option<map<int, real>>,
    snakeYears: Option<map<int, real>>)

  /** The per-year map an update carries, if any. */
  function UpdateYears(data: UpdateData): Option<map<int, real>> {
    if data.snakeYears.Some? then data.snakeYears else data.camelYears
  }

  function UpdateBody(cols: seq<string>, data: UpdateData): (body: SheetRow)
    requires YearColumns(cols)
    ensures UpdateYears(data).None? ==> body == data.fields
    ensures UpdateYears(data).Some? ==>
      FromColumns(cols, body) == SheetYearsOf(UpdateYears(data).value)
    ensures forall k :: k !in cols ==> (k in body <==> k in data.fields)
    ensures forall k :: k !in cols && k in body ==> body[k] == data.fields[k]
  {
    var years := UpdateYears(data);
    if years.Some? then
      var cols4 := ToColumns(cols, years.value);
      var body := data.fields + cols4;
      assert forall i :: 0 <= i < 4 ==> Field(body, cols[i]) == cols4[cols[i]];
      assert FromColumns(cols, body) == FromColumns(cols, cols4);
      ColumnsRoundTrip(cols, years.value);
      body
    else data.fields
  }

  // ---------------------------------------------------------------------
  // Monthly income rows

  /** The columns month `m` may come from, in the order they are tried. */
  function MonthColumns(m: int): seq<string> {
    if m == 1 then ["Ene", "ene", "enero", "Enero"]
    else if m == 2 then ["Feb", "feb", "febrero", "Febrero"]
    else if m == 3 then ["Mar", "mar", "marzo", "Marzo"]
    else if m == 4 then ["Abr", "abr", "abril", "Abril"]
    else if m == 5 then ["May", "may", "mayo", "Mayo"]
    else if m == 6 then ["Jun", "jun", "junio", "Junio"]
    else if m == 7 then ["Jul", "jul", "julio", "Julio"]
    else if m == 8 then ["Ago", "ago", "agosto", "Agosto"]
    else if m == 9 then ["Sep", "sep", "septiembre", "Septiembre"]
    else if m == 10 then ["Oct", "oct", "octubre", "Octubre"]
    else if m == 11 then ["Nov", "nov", "noviembre", "Noviembre"]
    else ["Dic", "dic", "diciembre", "Diciembre"]
  }

  /** `Number(row[key])` is a number other than 0. */
  predicate NonZeroAt(row: SheetRow, key: string) {
    var v := JsNumber(Field(row, key));
    v.Some? && v.value != 0.0
  }

  /**
   * `Number(row[k1]) || Number(row[k2]) || … || 0`: the first column whose
   * number is not 0 (`NaN` is skipped too), else 0.
   */
  function MonthAmount(row: SheetRow, keys: seq<string>): (r: real)
    ensures FindIndex(keys, (k: string) => NonZeroAt(row, k)).None? ==> r == 0.0
    ensures FindIndex(keys, (k: string) => NonZeroAt(row, k)).Some? ==>
      JsNumber(Field(row, keys[FindIndex(keys, (k: string) => NonZeroAt(row, k)).value])) == Some(r) && r != 0.0
    decreases |keys|
  {
    if keys == [] then 0.0
    else if NonZeroAt(row, keys[0]) then JsNumber(Field(row, keys[0])).value
    else MonthAmount(row, keys[1..])
  }

  /** The months of an income record. */
  const Months: set<int> := {1, 2, 3, 4, 5, 6, 7, 8, 9, 10, 11, 12}

  /** The row's `income` record: months 1 to 12. */
  function RowIncome(row: SheetRow): (income: map<int, real>)
    ensures income.Keys == Months
    ensures forall m :: m in Months ==> income[m] == MonthAmount(row, MonthColumns(m))
  {
    map m | m in Months :: MonthAmount(row, MonthColumns(m))
  }

  const TypeColumns: seq<string> := ["type", "tipo", "Type", "Tipo"]
  const VehicleIdColumns: seq<string> := ["vehicleId", "vehicle_id", "VehicleId", "matricula", "Matricula"]
  const PlateColumns: seq<string> := ["licensePlate", "license_plate", "LicensePlate", "matricula", "Matricula"]
  const NumberColumns: seq<string> := ["assignedNumber", "numero", "Numero"]

  /** `(row.type || row.tipo || row.Type || row.Tipo || '').toString().toLowerCase().trim()`. */
  function RowType(row: SheetRow): string {
    Trim(ToLower(CellText(Pick(row, TypeColumns, Text("")))))
  }

  /** The row is a subcontracted row: its type reads `subcontratado`, `subcontracted` or `sub`. */
  predicate IsSubcontractedType(t: string) {
    t == "subcontratado" || t == "subcontracted" || t == "sub"
  }

  /** The row's year: `Number(row.year)`, ignored when `NaN`, 0 or below 2000. */
  function RowYear(row: SheetRow): (y: Option<int>)
    ensures y.Some? ==> y.value >= 2000 && YearOf(Field(row, "year")) == y
  {
    var y := YearOf(Field(row, "year"));
    if y.Some? && y.value >= 2000 then y else None
  }

  /** An own-fleet entry: identifiers from the first truthy of their alias columns. */
  function OwnEntry(row: SheetRow): (e: VehicleIncome)
    ensures e.id == e.vehicleId
    ensures FirstTruthy(row, VehicleIdColumns).None? ==> e.vehicleId == Text("")
    ensures FirstTruthy(row, PlateColumns).None? ==> e.licensePlate == e.vehicleId
    ensures e.income == RowIncome(row)
  {
    var vehicleId := Pick(row, VehicleIdColumns, Text(""));
    var plate := Pick(row, PlateColumns, Or(vehicleId, Text("")));
    VehicleIncome(vehicleId, vehicleId, plate, Pick(row, NumberColumns, Text("")), RowIncome(row))
  }

  /** What one sheet row contributes to the grouping. */
  datatype IncomeRow = IncomeRow(year: Option<int>, subcontracted: bool, entry: VehicleIncome)

  /** The body of the `forEach` up to the update of `yearMap`. */
  function ReadIncomeRow(row: SheetRow): (r: IncomeRow)
    ensures r.year == RowYear(row)
    ensures r.subcontracted == IsSubcontractedType(RowType(row))
    ensures r.entry == OwnEntry(row)
  {
    IncomeRow(RowYear(row), IsSubcontractedType(RowType(row)), OwnEntry(row))
  }

  /** How a sheet row is read. */
  type RowReader = SheetRow -> IncomeRow

  /** The subcontracted total after adding one row: month by month, a missing month read as 0. */
  function AddMonths(current: map<int, real>, income: map<int, real>): (r: map<int, real>)
    ensures r.Keys == Months
    ensures forall m :: m in Months ==> r[m] == Get(current, m) + Get(income, m)
  {
    map m | m in Months :: Get(current, m) + Get(income, m)
  }

  /** One step of the `forEach`: a row of a valid year lands in that year's record. */
  function AddRow(groups: map<int, YearlyIncome>, r: IncomeRow): map<int, YearlyIncome> {
    if r.year.None? then groups
    else
      var y := r.year.value;
      var rec := if y in groups then groups[y] else YearlyIncome(y, [], map[]);
      if r.subcontracted then
        groups[y := rec.(subcontracted := AddMonths(rec.subcontracted, r.entry.income))]
      else
        groups[y := rec.(ownFleet := rec.ownFleet + [r.entry])]
  }

  /** `yearMap` after the rows. */
  function GroupedBy(read: RowReader, rows: seq<SheetRow>): (groups: map<int, YearlyIncome>)
    ensures forall y :: y in groups ==> groups[y].year == y
    decreases |rows|
  {
    if rows == [] then map[]
    else AddRow(GroupedBy(read, rows[..|rows| - 1]), read(rows[|rows| - 1]))
  }

  /** The grouping of the income sheet. */
  function Grouped(rows: seq<SheetRow>): map<int, YearlyIncome> {
    GroupedBy(ReadIncomeRow, rows)
  }

  /** `Object.values(yearMap)`: integer keys come out in ascending order. */
  function ObjectValues(groups: map<int, YearlyIncome>): (r: seq<YearlyIncome>)
    requires forall y :: y in groups ==> groups[y].year == y
    ensures |r| == |groups|
    ensures forall i, j :: 0 <= i < j < |r| ==> r[i].year < r[j].year
    ensures forall i :: 0 <= i < |r| ==> r[i].year in groups && groups[r[i].year] == r[i]
    ensures forall y :: y in groups ==> exists i :: 0 <= i < |r| && r[i].year == y
  {
    ValuesAt(groups, YearsAscending(groups))
  }

  /** The years of the grouping, smallest first. */
  function YearsAscending(groups: map<int, YearlyIncome>): (ys: seq<int>)
    ensures StrictlyAscending(ys) && |ys| == |groups|
    ensures forall y :: y in ys <==> y in groups
  {
    assert |groups.Keys| == |groups|;
    SortAscending(groups.Keys)
  }

  /** The records of the years `ys`, in that order. */
  function ValuesAt(groups: map<int, YearlyIncome>, ys: seq<int>): (r: seq<YearlyIncome>)
    requires forall y :: y in groups ==> groups[y].year == y
    requires StrictlyAscending(ys) && (forall y :: y in ys <==> y in groups) && |ys| == |groups|
    ensures |r| == |groups|
    ensures forall i, j :: 0 <= i < j < |r| ==> r[i].year < r[j].year
    ensures forall i :: 0 <= i < |r| ==> r[i].year in groups && groups[r[i].year] == r[i]
    ensures forall y :: y in groups ==> exists i :: 0 <= i < |r| && r[i].year == y
  {
    assert forall i :: 0 <= i < |ys| ==> ys[i] in groups;
    var r := seq(|ys|, i requires 0 <= i < |ys| => groups[ys[i]]);
    ValuesAtYears(groups, ys, r);
    r
  }

  lemma ValuesAtYears(groups: map<int, YearlyIncome>, ys: seq<int>, r: seq<YearlyIncome>)
    requires forall y :: y in groups ==> groups[y].year == y
    requires StrictlyAscending(ys) && (forall y :: y in ys <==> y in groups)
    requires |r| == |ys| && forall i :: 0 <= i < |r| ==> ys[i] in groups && r[i] == groups[ys[i]]
    ensures forall i, j :: 0 <= i < j < |r| ==> r[i].year < r[j].year
    ensures forall i :: 0 <= i < |r| ==> r[i].year in groups && groups[r[i].year] == r[i]
    ensures forall y :: y in groups ==> exists i :: 0 <= i < |r| && r[i].year == y
  {
    assert forall i :: 0 <= i < |r| ==> r[i].year == ys[i];
    forall y | y in groups
      ensures exists i :: 0 <= i < |r| && r[i].year == y
    {
      var i :| 0 <= i < |ys| && ys[i] == y;
      assert r[i].year == y;
    }
  }

  /** The years of the grouping are exactly the years the rows are read with. */
  lemma {:induction false} GroupedKeys(read: RowReader, rows: seq<SheetRow>, y: int)
    ensures y in GroupedBy(read, rows) <==> exists i :: 0 <= i < |rows| && read(rows[i]).year == Some(y)
    decreases |rows|
  {
    if rows != [] {
      var n := |rows| - 1;
      GroupedKeys(read, rows[..n], y);
      if y in GroupedBy(read, rows[..n]) {
        var i :| 0 <= i < n && read(rows[..n][i]).year == Some(y);
        assert read(rows[i]).year == Some(y);
      }
      if exists i :: 0 <= i < |rows| && read(rows[i]).year == Some(y) {
        var i :| 0 <= i < |rows| && read(rows[i]).year == Some(y);
        if i < n {
          assert rows[..n][i] == rows[i];
        }
      }
    }
  }

  /** Rows with no valid year are ignored: every year of the income grouping is at least 2000. */
  lemma GroupedYearsValid(rows: seq<SheetRow>, y: int)
    requires y in Grouped(rows)
    ensures y >= 2000
  {
    GroupedKeys(ReadIncomeRow, rows, y);
    var i :| 0 <= i < |rows| && ReadIncomeRow(rows[i]).year == Some(y);
  }

  /** The row is read as one of year `y`'s own-fleet rows. */
  predicate OwnRowOf(read: RowReader, y: int, row: SheetRow) {
    read(row).year == Some(y) && !read(row).subcontracted
  }

  /** The row is read as one of year `y`'s subcontracted rows. */
  predicate SubRowOf(read: RowReader, y: int, row: SheetRow) {
    read(row).year == Some(y) && read(row).subcontracted
  }

  /** A year with no record has no rows. */
  lemma GroupedNoRows(read: RowReader, rows: seq<SheetRow>, y: int)
    requires y !in GroupedBy(read, rows)
    ensures forall i :: 0 <= i < |rows| ==> read(rows[i]).year != Some(y)
  {
    GroupedKeys(read, rows, y);
  }

  /** A year's own fleet lists the entries of its non-subcontracted rows, in input order. */
  lemma {:induction false} GroupedOwnFleet(read: RowReader, rows: seq<SheetRow>, y: int)
    requires y in GroupedBy(read, rows)
    ensures GroupedBy(read, rows)[y].ownFleet
      == MapSeq(Filter(rows, (row: SheetRow) => OwnRowOf(read, y, row)), (row: SheetRow) => read(row).entry)
    decreases |rows|
  {
    var n := |rows| - 1;
    var p := (row: SheetRow) => OwnRowOf(read, y, row);
    var e := (row: SheetRow) => read(row).entry;
    var last := rows[n];
    if y in GroupedBy(read, rows[..n]) {
      GroupedOwnFleet(read, rows[..n], y);
    } else {
      GroupedNoRows(read, rows[..n], y);
      FilterNone(rows[..n], p);
    }
    if OwnRowOf(read, y, last) {
      var f := Filter(rows[..n], p);
      assert MapSeq(f + [last], e) == MapSeq(f, e) + [e(last)];
    }
  }

  /** One row's effect on a year's subcontracted amount for a month. */
  lemma AddRowSubcontracted(groups: map<int, YearlyIncome>, r: IncomeRow, y: int, m: int)
    requires m in Months && (y in groups || r.year == Some(y))
    ensures y in AddRow(groups, r)
    ensures Get(AddRow(groups, r)[y].subcontracted, m)
      == (if y in groups then Get(groups[y].subcontracted, m) else 0.0)
       + (if r.year == Some(y) && r.subcontracted then Get(r.entry.income, m) else 0.0)
  {
  }

  /** A year's subcontracted amount for a month is the sum of that month over its subcontracted rows. */
  lemma {:induction false} GroupedSubcontracted(read: RowReader, rows: seq<SheetRow>, y: int, m: int)
    requires y in GroupedBy(read, rows) && m in Months
    ensures Get(GroupedBy(read, rows)[y].subcontracted, m)
      == SumBy(Filter(rows, (row: SheetRow) => SubRowOf(read, y, row)), (row: SheetRow) => Get(read(row).entry.income, m))
    decreases |rows|
  {
    var n := |rows| - 1;
    var p := (row: SheetRow) => SubRowOf(read, y, row);
    var f := (row: SheetRow) => Get(read(row).entry.income, m);
    var last := rows[n];
    var prev := GroupedBy(read, rows[..n]);
    var before := Filter(rows[..n], p);
    assert GroupedBy(read, rows) == AddRow(prev, read(last));
    if y in prev {
      GroupedSubcontracted(read, rows[..n], y, m);
    } else {
      assert read(last).year == Some(y);
      GroupedNoRows(read, rows[..n], y);
      FilterNone(rows[..n], p);
    }
    AddRowSubcontracted(prev, read(last), y, m);
    if p(last) {
      assert Filter(rows, p) == before + [last];
      SumByAppend(before, [last], f);
    } else {
      assert Filter(rows, p) == before;
    }
  }

  /** The row loop of `yearlyIncomesApi.list`, then `Object.values(yearMap)`. */
  method GroupIncomesBy(read: RowReader, rows: seq<SheetRow>) returns (result: seq<YearlyIncome>)
    ensures result == ObjectValues(GroupedBy(read, rows))
  {
    var yearMap: map<int, YearlyIncome> := map[];
    for i := 0 to |rows|
      invariant yearMap == GroupedBy(read, rows[..i])
    {
      assert rows[..i + 1][..i] == rows[..i];
      var r := read(rows[i]);
      if r.year.Some? {
        var year := r.year.value;
        if year !in yearMap {
          yearMap := yearMap[year := YearlyIncome(year, [], map[])];
        }
        if r.subcontracted {
          var current := yearMap[year].subcontracted;
          yearMap := yearMap[year := yearMap[year].(subcontracted := AddMonths(current, r.entry.income))];
        } else {
          yearMap := yearMap[year := yearMap[year].(ownFleet := yearMap[year].ownFleet + [r.entry])];
        }
      }
    }
    assert rows[..|rows|] == rows;
    result := ObjectValues(yearMap);
  }

  /**
   * `yearlyIncomesApi.list` after the request: rows grouped per year, one
   * record per year in ascending year order.
   */
  method GroupIncomes(rows: seq<SheetRow>) returns (result: seq<YearlyIncome>)
    ensures result == ObjectValues(Grouped(rows))
  {
    result := GroupIncomesBy(ReadIncomeRow, rows);
  }
}
