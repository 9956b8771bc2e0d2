/**
 * Matching a vehicle to its own-fleet income row of the year by
 * normalised licence plate, as both analysis pages do.
 */
module Income {
  import opened Wrappers
  import opened Text
  import opened Collections
  import opened Domain

  /** `(s || '').toString().toUpperCase().replace(/\s+/g, '').trim()`. */
  function NormalizeId(c: Cell): (r: string)
    ensures !Truthy(c) ==> r == ""
    ensures Truthy(c) ==> r == NormalizeText(CellText(c))
  {
    if !Truthy(c) then "" else NormalizeText(CellText(c))
  }

  /** Upper case, whitespace removed; the final trim has nothing left to remove. */
  function NormalizeText(s: string): (r: string)
    ensures r == RemoveSpaces(ToUpper(s))
    ensures forall i :: 0 <= i < |r| ==> !IsSpace(r[i]) && !IsLower(r[i])
  {
    var t := ToUpper(s);
    var u := RemoveSpaces(t);
    assert forall i :: 0 <= i < |t| ==> !IsLower(t[i]);
    RemoveSpacesNoLower(t);
    TrimNoSpace(u);
    assert Trim(u) == u;
    Trim(u)
  }

  predicate IsLower(c: char) {
    'a' <= c <= 'z'
  }

  /** Removing whitespace from an upper-cased string leaves no lower-case letter. */
  lemma {:induction false} RemoveSpacesNoLower(t: string)
    requires forall i :: 0 <= i < |t| ==> !IsLower(t[i])
    ensures forall i :: 0 <= i < |RemoveSpaces(t)| ==> !IsLower(RemoveSpaces(t)[i])
    decreases |t|
  {
    if t != [] {
      RemoveSpacesNoLower(t[1..]);
    }
  }

  lemma ToUpperAppend(a: string, b: string)
    ensures ToUpper(a + b) == ToUpper(a) + ToUpper(b)
  {
  }

  /** Whitespace does not matter: a plate with an extra space inside normalises the same. */
  lemma NormalizeIgnoresSpace(a: string, c: char, b: string)
    requires IsSpace(c) && a + b != ""
    ensures NormalizeId(Text(a + [c] + b)) == NormalizeId(Text(a + b))
  {
    var ua, ub := ToUpper(a), ToUpper(b);
    UpperAroundSpace(a, c, b);
    ToUpperAppend(a, b);
    SpaceDropped(ua, c, ub);
    assert |a + [c] + b| > 0;
    NormalizeOfUpper(a + [c] + b, ua + [c] + ub);
    NormalizeOfUpper(a + b, ua + ub);
  }

  lemma UpperAroundSpace(a: string, c: char, b: string)
    requires IsSpace(c)
    ensures ToUpper(a + [c] + b) == ToUpper(a) + [c] + ToUpper(b)
  {
    assert UpperChar(c) == c;
  }

  lemma SpaceDropped(x: string, c: char, y: string)
    requires IsSpace(c)
    ensures RemoveSpaces(x + [c] + y) == RemoveSpaces(x + y)
  {
    RemoveSpacesAppend(x + [c], y);
    RemoveSpacesAppend(x, [c]);
    RemoveSpacesAppend(x, y);
    assert RemoveSpaces([c]) == [];
  }

  /** Case does not matter: upper-casing the plate first changes nothing. */
  lemma NormalizeIgnoresCase(s: string)
    requires s != ""
    ensures NormalizeId(Text(ToUpper(s))) == NormalizeId(Text(s))
  {
    UpperTwice(s);
    assert ToUpper(s) != "" by {
      assert |ToUpper(s)| == |s|;
    }
    NormalizeSame(ToUpper(s), s);
  }

  lemma UpperTwice(s: string)
    ensures ToUpper(ToUpper(s)) == ToUpper(s)
  {
  }

  lemma NormalizeSame(a: string, b: string)
    requires a != "" && b != "" && ToUpper(a) == ToUpper(b)
    ensures NormalizeId(Text(a)) == NormalizeId(Text(b))
  {
    NormalizeOfUpper(a, ToUpper(a));
    NormalizeOfUpper(b, ToUpper(a));
  }

  lemma NormalizeOfUpper(a: string, t: string)
    requires a != "" && ToUpper(a) == t
    ensures NormalizeId(Text(a)) == RemoveSpaces(t)
  {
  }

  /**
   * The test of the income lookup: the row's plate, vehicle id or id,
   * normalised, is non-empty and equals the vehicle's normalised plate.
   */
  predicate MatchesPlate(i: VehicleIncome, plate: string) {
    var vPlate := NormalizeId(Text(plate));
    var iPlate := NormalizeId(i.licensePlate);
    var iVehicleId := NormalizeId(i.vehicleId);
    var iId := NormalizeId(i.id);
    (iPlate != "" && vPlate != "" && iPlate == vPlate)
    || (iVehicleId != "" && vPlate != "" && iVehicleId == vPlate)
    || (iId != "" && vPlate != "" && iId == vPlate)
  }

  /** A vehicle with an empty plate never matches an income row. */
  lemma EmptyPlateNeverMatches(i: VehicleIncome)
    ensures !MatchesPlate(i, "")
  {
  }

  /** The own-fleet row of a vehicle in the year's income record, if any: the first that matches. */
  function IncomeRow(yearly: Option<YearlyIncome>, plate: string): (r: Option<VehicleIncome>)
    ensures yearly.None? ==> r.None?
    ensures yearly.Some? ==> r == Find(yearly.value.ownFleet, (i: VehicleIncome) => MatchesPlate(i, plate))
  {
    if yearly.None? then None
    else Find(yearly.value.ownFleet, (i: VehicleIncome) => MatchesPlate(i, plate))
  }

  /** The vehicle's income for the year: every month of its row summed, 0 without a row. */
  function VehicleIncomeTotal(yearly: Option<YearlyIncome>, plate: string): (r: real)
    ensures IncomeRow(yearly, plate).None? ==> r == 0.0
    ensures IncomeRow(yearly, plate).Some? ==> r == SumValues(IncomeRow(yearly, plate).value.income)
  {
    var row := IncomeRow(yearly, plate);
    if row.Some? then SumValues(row.value.income) else 0.0
  }

  /** `incomeData.find(d => d.year === year)`: the first record of the year. */
  function YearRecord(data: seq<YearlyIncome>, year: int): (r: Option<YearlyIncome>)
    ensures r.Some? ==> r.value.year == year && r.value in data
    ensures r.Some? ==> exists k :: 0 <= k < |data| && data[k] == r.value && forall j :: 0 <= j < k ==> data[j].year != year
    ensures r.None? <==> forall i :: 0 <= i < |data| ==> data[i].year != year
  {
    var p := (d: YearlyIncome) => d.year == year;
    var r := Find(data, p);
    assert r.Some? ==> var k := FindIndex(data, p).value;
      data[k] == r.value && forall j :: 0 <= j < k ==> !p(data[j]);
    r
  }
}
