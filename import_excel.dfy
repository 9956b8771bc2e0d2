/**
 * The Excel import page (src/pages/Import.tsx): reading a balance-sheet
 * workbook into (concept, amount) items, reading a fleet workbook into
 * vehicle rows, and the edits the user makes to both before saving.
 *
 * The workbook decoding itself (`xlsx`) is outside the model: a financial
 * sheet arrives as its row matrix of cell texts, a fleet sheet as its rows
 * keyed by column header.
 */
module ImportExcel {
  import opened Wrappers
  import opened Text
  import opened Numbers
  import opened Collections
  import opened Domain
  import Ledger
  import VA = VehicleAnalysis

  // ---------------------------------------------------------------------
  // Cell parsers

  /**
   * `parseSpanishNumber`: all whitespace removed; empty text and a lone
   * `-` are no number; otherwise every `.` is dropped, the first `,`
   * becomes the decimal point and the result goes through `parseFloat`.
   */
  function ParseSpanishNumber(s: string): Option<real> {
    if s == "" then None
    else
      var cleaned := RemoveSpaces(Trim(s));
      if cleaned == "" || cleaned == "-" then None
      else ParseFloat(ReplaceFirst(RemoveChar(cleaned, '.'), ',', '.'))
  }

  /** Whitespace anywhere in the text is ignored: `1 234,5` reads as `1234,5`. */
  lemma SpanishIgnoresSpaces(s: string)
    ensures ParseSpanishNumber(s) == ParseSpanishNumber(RemoveSpaces(s))
  {
    RemoveSpacesTrim(s);
    var t := RemoveSpaces(s);
    if t != "" {
      TrimNoSpaceAnywhere(t);
      RemoveSpacesNoSpace(t);
    }
  }

  /** Digits with no whitespace in them. */
  lemma DigitsHaveNoSpace(s: string)
    requires AllDigits(s)
    ensures forall i :: 0 <= i < |s| ==> !IsSpace(s[i])
  {
    forall i | 0 <= i < |s| ensures !IsSpace(s[i]) {
      assert IsDigit(s[i]);
    }
  }

  /** The concatenation of two digit strings is a digit string. */
  lemma DigitsAppend(a: string, b: string)
    requires AllDigits(a) && AllDigits(b)
    ensures AllDigits(a + b)
  {
    forall i | 0 <= i < |a + b| ensures IsDigit((a + b)[i]) {
      if i < |a| { assert (a + b)[i] == a[i]; } else { assert (a + b)[i] == b[i - |a|]; }
    }
  }

  /** `s` has no whitespace, and dropping its dots and turning its comma into a point gives `a.b`. */
  predicate RewritesToDecimal(s: string, a: string, b: string) {
    |s| >= 2 && SpaceFree(s)
    && ReplaceFirst(RemoveChar(s, '.'), ',', '.') == a + "." + b
    && a != [] && AllDigits(a) && b != [] && AllDigits(b)
  }

  /** The common steps: a text without whitespace that rewrites to `a.b` is read as `a.b`. */
  lemma {:induction false} SpanishRewrite(s: string, a: string, b: string)
    requires RewritesToDecimal(s, a, b)
    ensures ParseSpanishNumber(s) == Some(DigitsValue(a) as real + FractionValue(b))
  {
    TrimNoSpaceAnywhere(s);
    RemoveSpacesNoSpace(s);
    assert RemoveSpaces(Trim(s)) == s;
    assert s != "-" by { assert |s| >= 2; }
    NumberOfDecimal(a, b);
  }

  /** A comma is the decimal point: `a,b` is read as `a.b`. */
  lemma SpanishDecimal(a: string, b: string)
    requires a != [] && AllDigits(a) && b != [] && AllDigits(b)
    ensures ParseSpanishNumber(a + "," + b) == Some(DigitsValue(a) as real + FractionValue(b))
  {
    CommaNoSpace(a, b);
    VA.CommaToPoint(a, b);
    SpanishRewrite(a + "," + b, a, b);
  }

  /** `a,b` holds no whitespace when `a` and `b` are digits. */
  lemma CommaNoSpace(a: string, b: string)
    requires AllDigits(a) && AllDigits(b)
    ensures SpaceFree(a + "," + b)
  {
    var s := a + "," + b;
    DigitsHaveNoSpace(a);
    DigitsHaveNoSpace(b);
    forall i | 0 <= i < |s| ensures !IsSpace(s[i]) {
      if i < |a| { assert s[i] == a[i]; } else if i > |a| { assert s[i] == b[i - |a| - 1]; }
    }
  }

  /** `a.b,c` holds no whitespace when `a`, `b` and `c` are digits. */
  lemma ThousandsNoSpace(a: string, b: string, c: string)
    requires AllDigits(a) && AllDigits(b) && AllDigits(c)
    ensures SpaceFree(a + "." + b + "," + c)
  {
    var s := a + "." + b + "," + c;
    DigitsHaveNoSpace(a);
    DigitsHaveNoSpace(b);
    DigitsHaveNoSpace(c);
    forall i | 0 <= i < |s| ensures !IsSpace(s[i]) {
      if i < |a| { assert s[i] == a[i]; }
      else if |a| < i < |a| + 1 + |b| { assert s[i] == b[i - |a| - 1]; }
      else if i > |a| + 1 + |b| { assert s[i] == c[i - |a| - |b| - 2]; }
    }
  }

  /** Dropping the dots of `a.b,c` and turning its comma into a point gives `ab.c`. */
  lemma ThousandsRewritten(a: string, b: string, c: string)
    requires AllDigits(a) && AllDigits(b) && AllDigits(c)
    ensures ReplaceFirst(RemoveChar(a + "." + b + "," + c, '.'), ',', '.') == (a + b) + "." + c
  {
    var x := a + "." + b;
    assert a + "." + b + "," + c == x + ("," + c);
    DigitsAppend(a, b);
    VA.ThousandsUndotted(a, b);
    RemoveCharAppend(x, "," + c, '.');
    assert '.' !in "," + c by {
      forall i | 0 <= i < |"," + c| ensures ("," + c)[i] != '.' {
        if i > 0 { assert ("," + c)[i] == c[i - 1]; assert IsDigit(c[i - 1]); }
      }
    }
    RemoveCharAbsent("," + c, '.');
    assert a + b + ("," + c) == (a + b) + "," + c;
    VA.CommaToPoint(a + b, c);
  }

  /**
   * Every dot is a thousands separator, whatever the size of the groups:
   * `a.b,c` is read as `ab.c` (so `1.234,56` is 1234.56 and `1.5,0` is 15).
   */
  lemma SpanishThousands(a: string, b: string, c: string)
    requires a != [] && AllDigits(a) && AllDigits(b) && c != [] && AllDigits(c)
    ensures ParseSpanishNumber(a + "." + b + "," + c) == Some(DigitsValue(a + b) as real + FractionValue(c))
  {
    ThousandsParts(a, b, c);
    ThousandsRead(a, b, c);
  }

  lemma ThousandsRead(a: string, b: string, c: string)
    requires a != [] && AllDigits(a) && AllDigits(b) && c != [] && AllDigits(c)
    requires RewritesToDecimal(a + "." + b + "," + c, a + b, c)
    ensures ParseSpanishNumber(a + "." + b + "," + c) == Some(DigitsValue(a + b) as real + FractionValue(c))
  {
    SpanishRewrite(a + "." + b + "," + c, a + b, c);
  }

  /** What the common steps need to know about `a.b,c`. */
  lemma ThousandsParts(a: string, b: string, c: string)
    requires a != [] && AllDigits(a) && AllDigits(b) && c != [] && AllDigits(c)
    ensures RewritesToDecimal(a + "." + b + "," + c, a + b, c)
  {
    DigitsAppend(a, b);
    ThousandsNoSpace(a, b, c);
    ThousandsRewritten(a, b, c);
  }

  /**
   * The amount typed into the review list:
   * `parseFloat(value.replace(/\./g, '').replace(',', '.')) || 0`.
   */
  function ReviewAmount(value: string): real {
    OrZero(ParseFloat(ReplaceFirst(RemoveChar(value, '.'), ',', '.')))
  }

  /** On text without whitespace, the review parse agrees with the import parse wherever the latter reads a number. */
  lemma ReviewAmountAgrees(s: string)
    requires forall i :: 0 <= i < |s| ==> !IsSpace(s[i])
    requires ParseSpanishNumber(s).Some?
    ensures ReviewAmount(s) == ParseSpanishNumber(s).value
  {
    TrimNoSpaceAnywhere(s);
    RemoveSpacesNoSpace(s);
  }

  /** `isValidConcept`: trimmed, at least three characters, no `---`/`===` rule, not `Total`. */
  predicate IsValidConcept(cell: string) {
    cell != ""
    && var t := Trim(cell);
    |t| >= 3 && !StartsWith(t, "---") && !StartsWith(t, "===") && t != "Total"
  }

  /** The concept test looks at the trimmed text only. */
  lemma ValidConceptTrimmed(s: string)
    ensures IsValidConcept(s) <==> IsValidConcept(Trim(s))
  {
    TrimIdempotent(s);
  }

  // ---------------------------------------------------------------------
  // Financial rows

  /** One extracted item: "code concept" and its amount. */
  datatype Item = Item(concept: string, amount: real)

  /** The concept starts with the account code the analysis pages extract. */
  predicate HasAccountCode(x: Item) {
    Ledger.ExtractAccountCode(x.concept) != ""
  }

  /** `row[i]?.toString()`, with a missing cell read as "". */
  function CellAt(row: seq<string>, i: nat): string {
    if i < |row| then row[i] else ""
  }

  /**
   * One side of a balance row: the code in column `c`, the concept in
   * `c + 1` and the amount in `c + 2`. An item only for an account code
   * (eight leading digits of the trimmed code), a valid concept and an
   * amount that parses.
   */
  function SideItem(row: seq<string>, c: nat): (r: Option<Item>)
    ensures r.Some? ==> HasAccountCode(r.value)
    ensures r.Some? ==> c + 2 < |row| && ParseSpanishNumber(row[c + 2]) == Some(r.value.amount)
  {
    var code := Trim(CellAt(row, c));
    var concept := Trim(CellAt(row, c + 1));
    var amount := ParseSpanishNumber(CellAt(row, c + 2));
    if LeadingDigits(code) >= 8 && IsValidConcept(concept) && amount.Some? then
      Some(ItemOf(code, concept, amount.value))
    else None
  }

  /**
   * The test on the trimmed code is the ledger's `isAccountCode`: that one
   * trims again, which changes nothing.
   */
  lemma SideCodeTest(cell: string)
    ensures Ledger.IsAccountCode(Text(Trim(cell))) <==> LeadingDigits(Trim(cell)) >= 8
  {
    TrimIdempotent(cell);
  }

  /** The item of an account line: the trimmed code, a space, the concept. */
  function ItemOf(code: string, concept: string, amount: real): (x: Item)
    requires LeadingDigits(code) >= 8
    ensures HasAccountCode(x)
  {
    LeadingDigitsAppend(code, " " + concept);
    Item(code + " " + concept, amount)
  }

  function OptionSeq<T>(o: Option<T>): (r: seq<T>)
    ensures |r| <= 1
  {
    if o.Some? then [o.value] else []
  }

  /** How one side of a row is read: the row and the side's first column. */
  type SideReader = (seq<string>, nat) -> Option<Item>

  /**
   * The items of one row: nothing for a row of fewer than two cells, else
   * the item of the left side (columns 0-2), then, when the row has seven
   * cells, the item of the right side (columns 4-6).
   */
  function RowItemsBy(read: SideReader, row: seq<string>): (r: seq<Item>)
    ensures |r| <= 2
  {
    if |row| < 2 then []
    else if |row| < 7 then OptionSeq(read(row, 0))
    else OptionSeq(read(row, 0)) + OptionSeq(read(row, 4))
  }

  /** The items of all rows, in row order. */
  function ExtractedBy(read: SideReader, rows: seq<seq<string>>): (r: seq<Item>)
    ensures |r| <= 2 * |rows|
    decreases |rows|
  {
    if rows == [] then []
    else ExtractedBy(read, rows[..|rows| - 1]) + RowItemsBy(read, rows[|rows| - 1])
  }

  /** The items `processExcelFinancial` extracts from a sheet. */
  function Extracted(rows: seq<seq<string>>): seq<Item> {
    ExtractedBy(SideItem, rows)
  }

  /** The body of the row loop of `processExcelFinancial`: the items one row pushes. */
  method ReadRow(read: SideReader, row: seq<string>) returns (items: seq<Item>)
    ensures items == RowItemsBy(read, row)
  {
    items := [];
    if |row| >= 2 {
      var left := read(row, 0);
      if left.Some? {
        items := items + [left.value];
      }
      if |row| >= 7 {
        var right := read(row, 4);
        if right.Some? {
          items := items + [right.value];
        }
      }
    }
  }

  /** The row loop of `processExcelFinancial`. */
  method ExtractFinancial(read: SideReader, rows: seq<seq<string>>) returns (extracted: seq<Item>)
    ensures extracted == ExtractedBy(read, rows)
  {
    extracted := [];
    for i := 0 to |rows|
      invariant extracted == ExtractedBy(read, rows[..i])
    {
      assert rows[..i + 1][..i] == rows[..i];
      var items := ReadRow(read, rows[i]);
      extracted := extracted + items;
    }
    assert rows[..|rows|] == rows;
  }

  /** Every side of every row that yields an item contributes it. */
  lemma {:induction false} ExtractedComplete(read: SideReader, rows: seq<seq<string>>, i: nat, c: nat)
    requires i < |rows| && |rows[i]| >= 2
    requires c == 0 || (c == 4 && |rows[i]| >= 7)
    requires read(rows[i], c).Some?
    ensures read(rows[i], c).value in ExtractedBy(read, rows)
    decreases |rows|
  {
    var n := |rows| - 1;
    if i < n {
      assert rows[..n][i] == rows[i];
      ExtractedComplete(read, rows[..n], i, c);
    }
  }

  /** Every extracted item comes from one side of one row. */
  lemma {:induction false} ExtractedSound(read: SideReader, rows: seq<seq<string>>, x: Item)
    requires x in ExtractedBy(read, rows)
    ensures exists i, c :: 0 <= i < |rows| && (c == 0 || c == 4) && read(rows[i], c) == Some(x)
    decreases |rows|
  {
    var n := |rows| - 1;
    if x in ExtractedBy(read, rows[..n]) {
      ExtractedSound(read, rows[..n], x);
      var i, c :| 0 <= i < n && (c == 0 || c == 4) && read(rows[..n][i], c) == Some(x);
      assert rows[..n][i] == rows[i];
    } else {
      var row := rows[n];
      if read(row, 0) == Some(x) {
        assert read(rows[n], 0) == Some(x);
      } else {
        assert read(rows[n], 4) == Some(x);
      }
    }
  }

  /** Every item read from a balance sheet starts with an account code. */
  lemma ExtractedHaveCodes(rows: seq<seq<string>>)
    ensures forall x :: x in Extracted(rows) ==> HasAccountCode(x)
  {
    forall x | x in Extracted(rows)
      ensures HasAccountCode(x)
    {
      ExtractedSound(SideItem, rows, x);
      var i, c :| 0 <= i < |rows| && (c == 0 || c == 4) && SideItem(rows[i], c) == Some(x);
    }
  }

  // ---------------------------------------------------------------------
  // Deduplication by concept

  function ConceptOf(x: Item): string {
    x.concept
  }

  /** The concepts of a list of items, in order. */
  function Concepts(items: seq<Item>): (r: seq<string>)
    ensures |r| == |items|
    ensures forall k :: 0 <= k < |items| ==> r[k] == items[k].concept
  {
    MapSeq(items, ConceptOf)
  }

  /** The position of the first item with concept `c`. */
  function IndexOfConcept(items: seq<Item>, c: string): (r: Option<nat>)
    ensures r.Some? ==> r.value < |items| && items[r.value].concept == c
    ensures r.None? <==> forall k :: 0 <= k < |items| ==> items[k].concept != c
    decreases |items|
  {
    if items == [] then None
    else if items[0].concept == c then Some(0)
    else
      var r := IndexOfConcept(items[1..], c);
      if r.Some? then Some(r.value + 1) else None
  }

  /** The last item with concept `c`. */
  function LastWith(items: seq<Item>, c: string): (r: Option<Item>)
    ensures r.Some? ==> r.value in items && r.value.concept == c
    ensures r.None? ==> forall k :: 0 <= k < |items| ==> items[k].concept != c
    decreases |items|
  {
    if items == [] then None
    else if items[|items| - 1].concept == c then Some(items[|items| - 1])
    else LastWith(items[..|items| - 1], c)
  }

  /**
   * `new Map(items.map(i => [i.concept, i])).values()`: a `Map` keeps the
   * position at which a key was first set and the value it was last set to.
   */
  function UniqueByConcept(items: seq<Item>): (u: seq<Item>)
    ensures |u| <= |items|
    ensures items != [] ==> u != []
    decreases |items|
  {
    if items == [] then []
    else
      var prev := UniqueByConcept(items[..|items| - 1]);
      var x := items[|items| - 1];
      match IndexOfConcept(prev, x.concept)
      case Some(j) => prev[j := x]
      case None => prev + [x]
  }

  /**
   * One item per distinct concept, placed where the concept first occurs
   * and carrying the item of its last occurrence.
   */
  lemma UniqueByConceptSpec(items: seq<Item>)
    ensures Concepts(UniqueByConcept(items)) == Dedup(Concepts(items))
    ensures forall k :: 0 <= k < |UniqueByConcept(items)| ==>
      LastWith(items, UniqueByConcept(items)[k].concept) == Some(UniqueByConcept(items)[k])
  {
    UniqueConcepts(items);
    UniqueLast(items);
  }

  /** The concepts of the items, one more item appended. */
  lemma ConceptsSnoc(items: seq<Item>)
    requires items != []
    ensures Concepts(items) == Concepts(items[..|items| - 1]) + [items[|items| - 1].concept]
  {
  }

  /** The concepts of the deduplicated items are the distinct concepts, in order of first occurrence. */
  lemma {:induction false} UniqueConcepts(items: seq<Item>)
    ensures Concepts(UniqueByConcept(items)) == Dedup(Concepts(items))
    decreases |items|
  {
    if items != [] {
      var init := items[..|items| - 1];
      var x := items[|items| - 1];
      var prev := UniqueByConcept(init);
      var u := UniqueByConcept(items);
      UniqueConcepts(init);
      ConceptsSnoc(items);
      var d := Concepts(prev);
      assert Dedup(Concepts(items)) == if x.concept in d then d else d + [x.concept];
      match IndexOfConcept(prev, x.concept)
      case Some(j) =>
        assert u == prev[j := x];
        assert d[j] == x.concept;
        assert Concepts(u) == d;
      case None =>
        assert u == prev + [x];
        assert x.concept !in d;
        assert Concepts(u) == d + [x.concept];
    }
  }

  /** The item kept for each concept is the last item with that concept. */
  lemma {:induction false} UniqueLast(items: seq<Item>)
    ensures forall k :: 0 <= k < |UniqueByConcept(items)| ==>
      LastWith(items, UniqueByConcept(items)[k].concept) == Some(UniqueByConcept(items)[k])
    decreases |items|
  {
    if items != [] {
      var init := items[..|items| - 1];
      var x := items[|items| - 1];
      var prev := UniqueByConcept(init);
      var u := UniqueByConcept(items);
      UniqueLast(init);
      UniqueConcepts(init);
      assert NoDuplicates(Concepts(prev));
      forall k | 0 <= k < |u|
        ensures LastWith(items, u[k].concept) == Some(u[k])
      {
        UniqueLastAt(items, init, prev, k);
      }
    }
  }

  /** One position of `UniqueLast`'s step, given the induction hypothesis for the shorter list. */
  lemma UniqueLastAt(items: seq<Item>, init: seq<Item>, prev: seq<Item>, k: nat)
    requires items != [] && init == items[..|items| - 1] && prev == UniqueByConcept(init)
    requires k < |UniqueByConcept(items)|
    requires NoDuplicates(Concepts(prev))
    requires forall i :: 0 <= i < |prev| ==> LastWith(init, prev[i].concept) == Some(prev[i])
    ensures LastWith(items, UniqueByConcept(items)[k].concept) == Some(UniqueByConcept(items)[k])
  {
    var x := items[|items| - 1];
    var u := UniqueByConcept(items);
    var d := Concepts(prev);
    match IndexOfConcept(prev, x.concept)
    case Some(j) =>
      assert u == prev[j := x];
      if k != j {
        assert d[k] != d[j];
        assert u[k] == prev[k];
      }
    case None =>
      assert u == prev + [x];
      if k < |prev| {
        assert u[k] == prev[k];
        assert prev[k].concept != x.concept;
      }
  }

  /** The `Map` pass of `processExcelFinancial`. */
  method DedupByConcept(extracted: seq<Item>) returns (unique: seq<Item>)
    ensures unique == UniqueByConcept(extracted)
  {
    unique := [];
    for i := 0 to |extracted|
      invariant unique == UniqueByConcept(extracted[..i])
    {
      assert extracted[..i + 1][..i] == extracted[..i];
      var item := extracted[i];
      var j := IndexOfConcept(unique, item.concept);
      if j.Some? {
        unique := unique[j.value := item];
      } else {
        unique := unique + [item];
      }
    }
    assert extracted[..|extracted|] == extracted;
  }

  /**
   * `processExcelFinancial` after the workbook is decoded: `None` is the
   * "no valid data" error raised for an empty extraction.
   */
  method ProcessExcelFinancial(rows: seq<seq<string>>) returns (r: Option<seq<Item>>)
    ensures r.None? <==> Extracted(rows) == []
    ensures r.Some? ==> r.value == UniqueByConcept(Extracted(rows)) && r.value != []
  {
    var extracted := ExtractFinancial(SideItem, rows);
    if |extracted| == 0 {
      return None;
    }
    var unique := DedupByConcept(extracted);
    return Some(unique);
  }

  // ---------------------------------------------------------------------
  // Fleet rows

  /** One vehicle read from the fleet sheet; `None` is `NaN`. */
  datatype VehicleData = VehicleData(
    licensePlate: string,
    assignedNumber: Option<real>,
    acquisitionDate: Cell,
    acquisitionValue: Option<real>,
    seats: Option<real>,
    wheels: Option<real>,
    vehicleType: string,
    annualAmortization: Option<real>)

  const PlateKeys: seq<string> := ["licensePlate", "matricula", "Matricula", "MATRICULA", "Matr\U{00ED}cula", "plate"]
  const SeatKeys: seq<string> := ["seats", "plazas", "Plazas", "PLAZAS", "asientos"]
  const ValueKeys: seq<string> := ["acquisitionValue", "valor", "Valor", "precio", "Precio"]
  const NumberKeys: seq<string> := ["assignedNumber", "numero", "Numero", "num"]
  const DateKeys: seq<string> := ["acquisitionDate", "fecha", "Fecha", "Fecha Adquisici\U{00F3}n"]
  const WheelKeys: seq<string> := ["wheels", "ruedas", "Ruedas"]
  const AmortisationKeys: seq<string> := ["annualAmortization", "amortizacion"]

  /** `Math.round(x)`: the nearest integer, halves rounded up. */
  function Round(x: real): (r: int)
    ensures x - 0.5 < r as real <= x + 0.5
  {
    (x + 0.5).Floor
  }

  /** The size class: fewer than 30 seats is Micro, 60 or more Grande, anything else (`NaN` too) Normal. */
  function TypeOfSeats(seats: Option<real>): (t: string)
    ensures t == "Micro" <==> seats.Some? && seats.value < 30.0
    ensures t == "Grande" <==> seats.Some? && seats.value >= 60.0
    ensures t == "Normal" <==> seats.None? || 30.0 <= seats.value < 60.0
  {
    if seats.Some? && seats.value < 30.0 then "Micro"
    else if seats.Some? && seats.value >= 60.0 then "Grande"
    else "Normal"
  }

  /** The amortisation: the sheet's column, or else a tenth of the value rounded (`NaN` stays `NaN`). */
  function AmortisationOf(row: SheetRow, value: Option<real>): Option<real> {
    var picked := Pick(row, AmortisationKeys, Missing);
    if Truthy(picked) then JsNumber(picked)
    else if value.Some? then Some(Round(value.value / 10.0) as real)
    else None
  }

  /** The `jsonData.map((row, index) => …)` body of `processExcelFleet`. */
  function FleetRow(row: SheetRow, index: nat): (v: VehicleData)
    ensures v.vehicleType in {"Micro", "Normal", "Grande"}
  {
    var plate := Pick(row, PlateKeys, Text("TEMP-" + NatToString(index + 1)));
    var seats := JsNumber(Pick(row, SeatKeys, Num(55.0)));
    var value := JsNumber(Pick(row, ValueKeys, Num(100000.0)));
    VehicleData(
      CellText(plate),
      JsNumber(Pick(row, NumberKeys, Num((index + 1) as real))),
      Pick(row, DateKeys, Text("2020-01-01")),
      value,
      seats,
      JsNumber(Pick(row, WheelKeys, Num(6.0))),
      TypeOfSeats(seats),
      AmortisationOf(row, value))
  }

  /** A row with none of the known columns gets every default. */
  lemma EmptyRowDefaults(index: nat)
    ensures FleetRow(map[], index) == VehicleData(
      "TEMP-" + NatToString(index + 1), Some((index + 1) as real), Text("2020-01-01"),
      Some(100000.0), Some(55.0), Some(6.0), "Normal", Some(10000.0))
  {
    var row: SheetRow := map[];
    PickAbsent(row, PlateKeys, Text("TEMP-" + NatToString(index + 1)));
    PickAbsent(row, SeatKeys, Num(55.0));
    PickAbsent(row, ValueKeys, Num(100000.0));
    PickAbsent(row, NumberKeys, Num((index + 1) as real));
    PickAbsent(row, DateKeys, Text("2020-01-01"));
    PickAbsent(row, WheelKeys, Num(6.0));
    PickAbsent(row, AmortisationKeys, Missing);
  }

  /** A vehicle the import keeps: its plate text is neither empty nor "undefined". */
  predicate HasPlate(v: VehicleData) {
    v.licensePlate != "" && v.licensePlate != "undefined"
  }

  /** `processExcelFleet` after decoding: map each row with its index, keep those with a plate. */
  function FleetRows(rows: seq<SheetRow>): (r: seq<VehicleData>)
    ensures |r| <= |rows|
    ensures forall k :: 0 <= k < |r| ==> HasPlate(r[k])
  {
    Filter(seq(|rows|, i requires 0 <= i < |rows| => FleetRow(rows[i], i)), HasPlate)
  }

  /** `None` is the "no valid vehicles" error raised for an empty result. */
  function ProcessExcelFleet(rows: seq<SheetRow>): (r: Option<seq<VehicleData>>)
    ensures r.None? <==> FleetRows(rows) == []
    ensures r.Some? ==> r.value != [] && forall k :: 0 <= k < |r.value| ==> HasPlate(r.value[k])
  {
    var extracted := FleetRows(rows);
    if extracted == [] then None else Some(extracted)
  }

  // ---------------------------------------------------------------------
  // Review edits

  /** `list.filter((_, i) => i !== index)`. */
  function RemoveAt<T>(s: seq<T>, index: int): (r: seq<T>)
    ensures 0 <= index < |s| ==> |r| == |s| - 1
    ensures 0 <= index < |s| ==> forall k :: 0 <= k < |r| ==> r[k] == (if k < index then s[k] else s[k + 1])
    ensures !(0 <= index < |s|) ==> r == s
  {
    if 0 <= index < |s| then s[..index] + s[index + 1..] else s
  }

  /** Removing a row loses exactly that row. */
  lemma RemoveAtMultiset<T>(s: seq<T>, index: nat)
    requires index < |s|
    ensures multiset(RemoveAt(s, index)) + multiset{s[index]} == multiset(s)
  {
    assert s == s[..index] + [s[index]] + s[index + 1..];
  }

  /** An edit of one field of a fleet row; numeric fields take `Number(text)`. */
  datatype FleetEdit =
    | SetPlate(plate: string)
    | SetNumber(number: string)
    | SetDate(date: string)
    | SetValue(value: string)
    | SetSeats(seats: string)
    | SetWheels(wheels: string)
    | SetType(vehicleType: string)
    | SetAmortisation(amortisation: string)

  /** `{ ...row, [field]: value }`. The size class is not recomputed when the seats change. */
  function ApplyEdit(v: VehicleData, e: FleetEdit): (r: VehicleData)
    ensures !e.SetType? ==> r.vehicleType == v.vehicleType
    ensures e.SetSeats? ==> r == v.(seats := NumberOf(e.seats))
  {
    match e
    case SetPlate(p) => v.(licensePlate := p)
    case SetNumber(t) => v.(assignedNumber := NumberOf(t))
    case SetDate(d) => v.(acquisitionDate := Text(d))
    case SetValue(t) => v.(acquisitionValue := NumberOf(t))
    case SetSeats(t) => v.(seats := NumberOf(t))
    case SetWheels(t) => v.(wheels := NumberOf(t))
    case SetType(t) => v.(vehicleType := t)
    case SetAmortisation(t) => v.(annualAmortization := NumberOf(t))
  }

  /** The review state of the import page: what was extracted, as the user edits it. */
  class Review {
    var financial: Option<seq<Item>>
    var fleet: Option<seq<VehicleData>>

    constructor(financial: Option<seq<Item>>, fleet: Option<seq<VehicleData>>)
      ensures this.financial == financial && this.fleet == fleet
    {
      this.financial := financial;
      this.fleet := fleet;
    }

    /** `handleFinancialAmountChange`: only the amount of the item at `index`. */
    method ChangeAmount(index: nat, value: string)
      requires financial.Some? ==> index < |financial.value|
      modifies this
      ensures fleet == old(fleet)
      ensures old(financial).None? ==> financial.None?
      ensures old(financial).Some? ==> financial == Some(old(financial).value[index := old(financial).value[index].(amount := ReviewAmount(value))])
    {
      if financial.Some? {
        var items := financial.value;
        items := items[index := items[index].(amount := ReviewAmount(value))];
        financial := Some(items);
      }
    }

    /** `handleFinancialConceptChange`: only the concept of the item at `index`. */
    method ChangeConcept(index: nat, value: string)
      requires financial.Some? ==> index < |financial.value|
      modifies this
      ensures fleet == old(fleet)
      ensures old(financial).None? ==> financial.None?
      ensures old(financial).Some? ==> financial == Some(old(financial).value[index := old(financial).value[index].(concept := value)])
    {
      if financial.Some? {
        var items := financial.value;
        items := items[index := items[index].(concept := value)];
        financial := Some(items);
      }
    }

    /** `removeFinancialRow`. */
    method RemoveFinancialRow(index: int)
      modifies this
      ensures fleet == old(fleet)
      ensures old(financial).None? ==> financial.None?
      ensures old(financial).Some? ==> financial == Some(RemoveAt(old(financial).value, index))
    {
      if financial.Some? {
        financial := Some(RemoveAt(financial.value, index));
      }
    }

    /** `handleFleetFieldChange`: only the edited field of the row at `index`. */
    method ChangeFleetField(index: nat, e: FleetEdit)
      requires fleet.Some? ==> index < |fleet.value|
      modifies this
      ensures financial == old(financial)
      ensures old(fleet).None? ==> fleet.None?
      ensures old(fleet).Some? ==> fleet == Some(old(fleet).value[index := ApplyEdit(old(fleet).value[index], e)])
    {
      if fleet.Some? {
        var rows := fleet.value;
        var edited := ApplyEdit(rows[index], e);
        rows := rows[index := edited];
        fleet := Some(rows);
      }
    }

    /** `removeFleetRow`. */
    method RemoveFleetRow(index: int)
      modifies this
      ensures financial == old(financial)
      ensures old(fleet).None? ==> fleet.None?
      ensures old(fleet).Some? ==> fleet == Some(RemoveAt(old(fleet).value, index))
    {
      if fleet.Some? {
        fleet := Some(RemoveAt(fleet.value, index));
      }
    }
  }
}
