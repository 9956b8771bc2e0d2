/**
 * One vehicle's card (src/components/VehicleCard.tsx): the years whose
 * kilometres it lists, the kilometre fields, and the guarded "add year"
 * row with its `newYear` / `newKms` inputs. Every change goes out as a
 * call of the page's kilometre update.
 */
module VehicleCard {
  import opened Wrappers
  import opened Numbers
  import opened Collections
  import opened Domain

  /** The years listed even when the vehicle has no kilometres for them. */
  const DefaultYears: set<int> := {2023, 2024, 2025, 2026}

  /** `allYears`: the default years and the vehicle's own, each once, latest first. */
  function AllYears(v: Vehicle): (r: seq<int>)
    ensures StrictlyDescending(r)
    ensures forall y :: y in r <==> y in DefaultYears || y in v.annualKms
  {
    SortDescending(DefaultYears + v.annualKms.Keys)
  }

  /** A call of `onUpdateKms(vehicleId, year, kms)`; `None` is `NaN`. */
  datatype KmsUpdate = KmsUpdate(vehicleId: string, year: int, kms: Option<int>)

  /** `newYear && !vehicle.annualKms[newYear]`; `None` is `NaN`. */
  predicate CanAddKms(v: Vehicle, newYear: Option<int>) {
    newYear.Some? && newYear.value != 0 && Get(v.annualKms, newYear.value) == 0.0
  }

  /** The vehicle after the page has applied an update with a number. */
  function Applied(v: Vehicle, u: KmsUpdate): (r: Vehicle)
    requires u.kms.Some?
    ensures r.annualKms == v.annualKms[u.year := u.kms.value as real]
    ensures r.(annualKms := v.annualKms) == v
  {
    v.(annualKms := v.annualKms[u.year := u.kms.value as real])
  }

  /**
   * Removing a year's kilometres through the card sets them to 0 and keeps
   * the year: it is still listed, and it can be added again.
   */
  lemma RemoveKeepsYear(v: Vehicle, year: int)
    requires year != 0
    ensures var r := Applied(v, KmsUpdate(v.id, year, Some(0)));
            year in r.annualKms && Get(r.annualKms, year) == 0.0
            && year in AllYears(r) && CanAddKms(r, Some(year))
  {
  }

  /**
   * Once the page has stored a year added with a non-zero figure, the same
   * year cannot be added again.
   */
  lemma AddedYearNotAgain(v: Vehicle, year: int, kms: int)
    requires CanAddKms(v, Some(year)) && kms != 0
    ensures !CanAddKms(Applied(v, KmsUpdate(v.id, year, Some(kms))), Some(year))
  {
  }

  /** The card of one vehicle; `None` in an input is `NaN`. */
  class VehicleCard {
    const vehicle: Vehicle
    var newYear: Option<int>
    var newKms: Option<int>

    constructor (vehicle: Vehicle, currentYear: int)
      ensures this.vehicle == vehicle && newYear == Some(currentYear + 1) && newKms == Some(0)
    {
      this.vehicle := vehicle;
      newYear := Some(currentYear + 1);
      newKms := Some(0);
    }

    /** The inputs of the "add year" row: `parseInt(value)`. */
    method SetNewYear(value: string)
      modifies this
      ensures newYear == ParseInt(value) && newKms == old(newKms)
    {
      newYear := ParseInt(value);
    }

    method SetNewKms(value: string)
      modifies this
      ensures newKms == ParseInt(value) && newYear == old(newYear)
    {
      newKms := ParseInt(value);
    }

    /**
     * `handleAddKms`: a year that is set and has no kilometres is sent with
     * the kilometre input, and the inputs go back to next year and 0;
     * otherwise nothing is sent and nothing changes.
     */
    method AddKms(currentYear: int) returns (sent: Option<KmsUpdate>)
      modifies this
      ensures CanAddKms(vehicle, old(newYear)) ==>
        sent == Some(KmsUpdate(vehicle.id, old(newYear).value, old(newKms)))
        && newYear == Some(currentYear + 1) && newKms == Some(0)
      ensures !CanAddKms(vehicle, old(newYear)) ==>
        sent.None? && newYear == old(newYear) && newKms == old(newKms)
    {
      if CanAddKms(vehicle, newYear) {
        sent := Some(KmsUpdate(vehicle.id, newYear.value, newKms));
        newYear := Some(currentYear + 1);
        newKms := Some(0);
      } else {
        sent := None;
      }
    }

    /** `handleRemoveKms`: the year's kilometres are sent as 0; the key is not deleted. */
    method RemoveKms(year: int) returns (sent: KmsUpdate)
      ensures sent == KmsUpdate(vehicle.id, year, Some(0))
    {
      sent := KmsUpdate(vehicle.id, year, Some(0));
    }

    /** A year's field edited to `value`: `parseInt(value) || 0` is sent. */
    method EditKms(year: int, value: string) returns (sent: KmsUpdate)
      ensures sent.vehicleId == vehicle.id && sent.year == year
      ensures ParseInt(value).Some? ==> sent.kms == ParseInt(value)
      ensures ParseInt(value).None? ==> sent.kms == Some(0)
    {
      sent := KmsUpdate(vehicle.id, year, Some(IntOrZero(ParseInt(value))));
    }
  }
}
