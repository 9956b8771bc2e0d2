/**
 * The fleet management page (src/pages/FleetManagement.tsx): the
 * vehicles split into those active in the study year and the others, and
 * the handlers that change the page's vehicle list.
 */
module Fleet {
  import opened Wrappers
  import opened Numbers
  import opened Collections
  import opened Domain
  import opened Dates
  import opened Activity

  /** The vehicles with a positive coefficient for the study year. */
  function ActiveVehicles(vs: seq<Vehicle>, year: int, native: string -> Option<Date>): (r: seq<Vehicle>)
    ensures forall i :: 0 <= i < |r| ==> !Excluded(Acquired(r[i], native), Sold(r[i], native), year)
  {
    var r := Filter(vs, (v: Vehicle) => VehicleCoefficient(v, year, native) > 0.0);
    forall i | 0 <= i < |r|
      ensures !Excluded(Acquired(r[i], native), Sold(r[i], native), year)
    {
      FleetCoefficientZeroIff(Acquired(r[i], native), Sold(r[i], native), year);
    }
    r
  }

  /** The vehicles whose coefficient for the study year is 0. */
  function InactiveVehicles(vs: seq<Vehicle>, year: int, native: string -> Option<Date>): (r: seq<Vehicle>)
    ensures forall i :: 0 <= i < |r| ==> Excluded(Acquired(r[i], native), Sold(r[i], native), year)
  {
    var r := Filter(vs, (v: Vehicle) => VehicleCoefficient(v, year, native) == 0.0);
    forall i | 0 <= i < |r|
      ensures Excluded(Acquired(r[i], native), Sold(r[i], native), year)
    {
      FleetCoefficientZeroIff(Acquired(r[i], native), Sold(r[i], native), year);
    }
    r
  }

  /**
   * The two lists partition the fleet: every vehicle is in one of them,
   * as the coefficient is either 0 or at least 1/12.
   */
  lemma ActiveInactivePartition(vs: seq<Vehicle>, year: int, native: string -> Option<Date>)
    ensures |ActiveVehicles(vs, year, native)| + |InactiveVehicles(vs, year, native)| == |vs|
    ensures forall i :: 0 <= i < |vs| ==> vs[i] in ActiveVehicles(vs, year, native) || vs[i] in InactiveVehicles(vs, year, native)
  {
    var p := (v: Vehicle) => VehicleCoefficient(v, year, native) > 0.0;
    var q := (v: Vehicle) => VehicleCoefficient(v, year, native) == 0.0;
    forall i | 0 <= i < |vs|
      ensures q(vs[i]) == !p(vs[i])
    {
      FleetCoefficientZeroIff(Acquired(vs[i], native), Sold(vs[i], native), year);
    }
    FilterComplementCount(vs, p, q);
  }

  /** `{ ...vehicle, saleDate, saleValue: parseFloat(saleValue || '0') }`; `None` is `NaN`. */
  function SoldVehicle(v: Vehicle, saleDate: string, saleValue: Option<string>): (r: Vehicle)
    ensures r == v.(saleDate := saleDate, saleValue := r.saleValue)
    ensures saleValue.None? || saleValue == Some("") ==> r.saleValue == Some(0.0)
  {
    var answer := if saleValue.Some? && saleValue.value != "" then saleValue.value else "0";
    ParseFloatZero();
    v.(saleDate := saleDate, saleValue := ParseFloat(answer))
  }

  /**
   * The sale the page submits for the answers to its two prompts: none
   * when the date is cancelled or left empty.
   */
  function Sale(v: Vehicle, saleDate: Option<string>, saleValue: Option<string>): (r: Option<Vehicle>)
    ensures r.Some? <==> saleDate.Some? && saleDate.value != ""
    ensures r.Some? ==> r.value.saleDate == saleDate.value
    ensures r.Some? ==> r.value.(saleValue := v.saleValue, saleDate := v.saleDate) == v
  {
    if saleDate.Some? && saleDate.value != "" then Some(SoldVehicle(v, saleDate.value, saleValue)) else None
  }

  /** Vehicle `id`'s kilometres replaced by `kms`, for every vehicle with that id. */
  function WithKms(vs: seq<Vehicle>, id: string, kms: map<int, real>): (r: seq<Vehicle>)
    ensures |r| == |vs|
    ensures forall i :: 0 <= i < |vs| && vs[i].id != id ==> r[i] == vs[i]
    ensures forall i :: 0 <= i < |vs| && vs[i].id == id ==> r[i] == vs[i].(annualKms := kms)
  {
    MapSeq(vs, (v: Vehicle) => if v.id == id then v.(annualKms := kms) else v)
  }

  /** The page's list of vehicles. */
  class FleetPage {
    var vehicles: seq<Vehicle>

    constructor (loaded: seq<Vehicle>)
      ensures vehicles == loaded
    {
      vehicles := loaded;
    }

    /**
     * `handleUpdateKms`: the kilometres of the first vehicle with the id,
     * with `year` set to `kms`, are sent to the sheet (`sent`); only when
     * the update succeeds (`ok`) does the list change. An unknown id sends
     * nothing and changes nothing.
     */
    method UpdateKms(id: string, year: int, kms: real, ok: bool) returns (sent: Option<map<int, real>>)
      modifies this
      ensures var found := Find(old(vehicles), (v: Vehicle) => v.id == id);
              sent == (if found.Some? then Some(found.value.annualKms[year := kms]) else None)
      ensures sent.Some? && ok ==> vehicles == WithKms(old(vehicles), id, sent.value)
      ensures sent.None? || !ok ==> vehicles == old(vehicles)
    {
      var found := Find(vehicles, (v: Vehicle) => v.id == id);
      if found.None? {
        return None;
      }
      var updatedKms := found.value.annualKms[year := kms];
      sent := Some(updatedKms);
      if ok {
        vehicles := WithKms(vehicles, id, updatedKms);
      }
    }

    /**
     * `handleSubmitVehicle`: after a successful upsert the list is the
     * sheet's list read back (`reloaded`); after a failed one it stays.
     */
    method SubmitVehicle(v: Vehicle, ok: bool, reloaded: seq<Vehicle>)
      modifies this
      ensures ok ==> vehicles == reloaded
      ensures !ok ==> vehicles == old(vehicles)
    {
      if ok {
        vehicles := reloaded;
      }
    }

    /**
     * `handleSellVehicle`: the sale built from the prompts' answers is
     * submitted; a cancelled or empty date submits nothing.
     */
    method SellVehicle(v: Vehicle, saleDate: Option<string>, saleValue: Option<string>, ok: bool, reloaded: seq<Vehicle>)
      returns (submitted: Option<Vehicle>)
      modifies this
      ensures submitted == Sale(v, saleDate, saleValue)
      ensures submitted.Some? && ok ==> vehicles == reloaded
      ensures submitted.None? || !ok ==> vehicles == old(vehicles)
    {
      submitted := Sale(v, saleDate, saleValue);
      if submitted.Some? {
        SubmitVehicle(submitted.value, ok, reloaded);
      }
    }
  }

  /**
   * The kilometre update changes nothing but one year's kilometres of the
   * vehicles with that id, which all get the first such vehicle's map.
   */
  lemma KmsUpdateOnlyThatYear(vs: seq<Vehicle>, id: string, year: int, kms: real, i: nat)
    requires i < |vs| && vs[i].id == id
    requires forall j :: 0 <= j < i ==> vs[j].id != id
    ensures var r := WithKms(vs, id, vs[i].annualKms[year := kms]);
            r[i].annualKms[year] == kms
            && (forall y :: y != year ==> (y in r[i].annualKms <==> y in vs[i].annualKms))
            && (forall y :: y != year && y in vs[i].annualKms ==> r[i].annualKms[y] == vs[i].annualKms[y])
            && r[i].(annualKms := vs[i].annualKms) == vs[i]
            && (forall j :: 0 <= j < |vs| && vs[j].id != id ==> r[j] == vs[j])
  {
  }
}
