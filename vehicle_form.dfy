/**
 * The vehicle form (src/components/VehicleFormModal.tsx): the vehicle being
 * edited, field by field, its kilometre map edited one year at a time, and
 * the two inputs (year and kilometres) of the "add entry" row.
 */
module VehicleForm {
  import opened Wrappers
  import opened Text
  import opened Numbers
  import opened Collections
  import opened Domain

  /** The form's inputs; the number inputs are listed first. */
  datatype VehicleField =
    | AssignedNumber | AcquisitionValue | AnnualAmortization | SaleValue | Seats | Wheels
    | LicensePlate | VehicleType | AcquisitionDate | SaleDate

  /** `parseFloat(value) || 0`. */
  function NumberInput(value: string): (r: real)
    ensures ParseFloat(value).Some? ==> r == ParseFloat(value).value
    ensures ParseFloat(value).None? ==> r == 0.0
  {
    OrZero(ParseFloat(value))
  }

  /** A number kept in one of the vehicle's integer fields: its integer part. */
  function Truncate(x: real): (r: int)
    ensures x >= 0.0 ==> r >= 0 && r as real <= x < r as real + 1.0
    ensures x < 0.0 ==> r <= 0 && r as real - 1.0 < x <= r as real
  {
    if x >= 0.0 then x.Floor else -((-x).Floor)
  }

  /** `parseInt(value) || 0` as a kilometre figure. */
  function KmsInput(value: string): (r: real)
    ensures ParseInt(value).Some? ==> r == ParseInt(value).value as real
    ensures ParseInt(value).None? ==> r == 0.0
  {
    IntOrZero(ParseInt(value)) as real
  }

  /**
   * `getInitialState`: the vehicle being edited, or a blank vehicle of
   * type Normal, acquired today, with no kilometres and no sale.
   */
  function Initial(editing: Option<Vehicle>, today: string): (r: Vehicle)
    ensures editing.Some? ==> r == editing.value
    ensures editing.None? ==> r.annualKms == map[] && r.vehicleType == "Normal" && r.id == "" && r.licensePlate == ""
    ensures editing.None? ==> r.acquisitionDate == today && r.saleDate == "" && r.saleValue.None?
  {
    if editing.Some? then editing.value
    else Vehicle("", "", 0, today, "", 0.0, None, 0.0, 0, 0, "Normal", map[])
  }

  /**
   * `handleChange`: the edited field takes the input's text, or, for a
   * number input, `parseFloat(value) || 0`; every other field stays.
   */
  function Changed(v: Vehicle, field: VehicleField, value: string): (r: Vehicle)
    ensures field == AcquisitionValue ==> r == v.(acquisitionValue := NumberInput(value))
    ensures field == AnnualAmortization ==> r == v.(annualAmortization := NumberInput(value))
    ensures field == SaleValue ==> r == v.(saleValue := Some(NumberInput(value)))
    ensures field == AssignedNumber ==> r == v.(assignedNumber := Truncate(NumberInput(value)))
    ensures field == Seats ==> r == v.(seats := Truncate(NumberInput(value)))
    ensures field == Wheels ==> r == v.(wheels := Truncate(NumberInput(value)))
    ensures field == LicensePlate ==> r == v.(licensePlate := value)
    ensures field == VehicleType ==> r == v.(vehicleType := value)
    ensures field == AcquisitionDate ==> r == v.(acquisitionDate := value)
    ensures field == SaleDate ==> r == v.(saleDate := value)
  {
    match field
    case AssignedNumber => v.(assignedNumber := Truncate(NumberInput(value)))
    case AcquisitionValue => v.(acquisitionValue := NumberInput(value))
    case AnnualAmortization => v.(annualAmortization := NumberInput(value))
    case SaleValue => v.(saleValue := Some(NumberInput(value)))
    case Seats => v.(seats := Truncate(NumberInput(value)))
    case Wheels => v.(wheels := Truncate(NumberInput(value)))
    case LicensePlate => v.(licensePlate := value)
    case VehicleType => v.(vehicleType := value)
    case AcquisitionDate => v.(acquisitionDate := value)
    case SaleDate => v.(saleDate := value)
  }

  /** A whole number typed into an integer field is stored as it is. */
  lemma WholeNumberKept(v: Vehicle, field: VehicleField, n: nat)
    requires field == AssignedNumber || field == Seats || field == Wheels
    ensures var r := Changed(v, field, NatToString(n));
            r.assignedNumber == (if field == AssignedNumber then n else v.assignedNumber)
            && r.seats == (if field == Seats then n else v.seats)
            && r.wheels == (if field == Wheels then n else v.wheels)
  {
    NumberOfNatToString(n);
  }

  /** `kmsValue.toString()`; `None` (`NaN`) is written "NaN". */
  function KmsText(kms: Option<int>): string {
    if kms.Some? then IntToString(kms.value) else "NaN"
  }

  /** The text `kmsValue.toString()` is read back as the number, and "NaN" as 0. */
  lemma KmsTextRoundTrip(kms: Option<int>)
    ensures KmsInput(KmsText(kms)) == kms.GetOr(0) as real
  {
    if kms.Some? {
      ParseIntIntToString(kms.value);
    } else {
      assert "NaN"[0] == 'N';
      assert TrimStart("NaN") == "NaN";
    }
  }

  /** `kmsYear && !vehicle.annualKms[kmsYear]`; `None` is `NaN`. */
  predicate CanAddEntry(v: Vehicle, kmsYear: Option<int>) {
    kmsYear.Some? && kmsYear.value != 0 && Get(v.annualKms, kmsYear.value) == 0.0
  }

  /**
   * Removing an entry undoes adding it: a year that had no entry, added
   * and then removed, leaves the map as it was, and it can be added again.
   */
  lemma RemoveUndoesAdd(v: Vehicle, year: int, kms: real)
    requires year !in v.annualKms && year != 0
    ensures v.annualKms[year := kms] - {year} == v.annualKms
    ensures CanAddEntry(v.(annualKms := v.annualKms[year := kms] - {year}), Some(year))
  {
    assert v.annualKms[year := kms] - {year} == v.annualKms;
  }

  /** The form's state; `None` in an input is `NaN`. */
  class VehicleForm {
    var vehicle: Vehicle
    var kmsYear: Option<int>
    var kmsValue: Option<int>

    constructor (editing: Option<Vehicle>, today: string, currentYear: int)
      ensures vehicle == Initial(editing, today) && kmsYear == Some(currentYear) && kmsValue == Some(0)
    {
      vehicle := Initial(editing, today);
      kmsYear := Some(currentYear);
      kmsValue := Some(0);
    }

    /** `handleChange`. */
    method Change(field: VehicleField, value: string)
      modifies this
      ensures vehicle == Changed(old(vehicle), field, value)
      ensures kmsYear == old(kmsYear) && kmsValue == old(kmsValue)
    {
      vehicle := Changed(vehicle, field, value);
    }

    /** `handleKmsChange`: only that year's kilometres change, to `parseInt(value) || 0`. */
    method KmsChange(year: int, value: string)
      modifies this
      ensures vehicle == old(vehicle).(annualKms := old(vehicle).annualKms[year := KmsInput(value)])
      ensures kmsYear == old(kmsYear) && kmsValue == old(kmsValue)
    {
      var newKms := vehicle.annualKms[year := KmsInput(value)];
      vehicle := vehicle.(annualKms := newKms);
    }

    /** The year and kilometre inputs of the "add entry" row: `parseInt(value)`. */
    method SetKmsYear(value: string)
      modifies this
      ensures kmsYear == ParseInt(value) && vehicle == old(vehicle) && kmsValue == old(kmsValue)
    {
      kmsYear := ParseInt(value);
    }

    method SetKmsValue(value: string)
      modifies this
      ensures kmsValue == ParseInt(value) && vehicle == old(vehicle) && kmsYear == old(kmsYear)
    {
      kmsValue := ParseInt(value);
    }

    /**
     * `addKmsEntry`: a year that is set and has no kilometres gets the
     * kilometre input's value (0 when it holds no number), and the inputs
     * go back to the current year and 0; otherwise nothing changes.
     */
    method AddKmsEntry(currentYear: int)
      modifies this
      ensures CanAddEntry(old(vehicle), old(kmsYear)) ==>
        vehicle == old(vehicle).(annualKms := old(vehicle).annualKms[old(kmsYear).value := old(kmsValue).GetOr(0) as real])
        && kmsYear == Some(currentYear) && kmsValue == Some(0)
      ensures !CanAddEntry(old(vehicle), old(kmsYear)) ==>
        vehicle == old(vehicle) && kmsYear == old(kmsYear) && kmsValue == old(kmsValue)
    {
      if CanAddEntry(vehicle, kmsYear) {
        KmsTextRoundTrip(kmsValue);
        KmsChange(kmsYear.value, KmsText(kmsValue));
        kmsYear := Some(currentYear);
        kmsValue := Some(0);
      }
    }

    /** `removeKmsEntry`: that year's key is deleted and nothing else changes. */
    method RemoveKmsEntry(year: int)
      modifies this
      ensures vehicle == old(vehicle).(annualKms := old(vehicle).annualKms - {year})
      ensures kmsYear == old(kmsYear) && kmsValue == old(kmsValue)
    {
      vehicle := vehicle.(annualKms := vehicle.annualKms - {year});
    }

    /** `handleSubmit`: the vehicle is submitted with its licence plate as id. */
    method Submit() returns (submitted: Vehicle)
      ensures submitted.id == vehicle.licensePlate
      ensures submitted.(id := vehicle.id) == vehicle
    {
      submitted := vehicle.(id := vehicle.licensePlate);
    }
  }
}
