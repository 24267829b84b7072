/**
 Rental contracts. A contract binds a client to a vehicle for a number of days
 and freezes the total price when it is created.

 A contract does not copy its vehicle: it refers to the same vehicle the rest of
 the agency sees, so a later change to that vehicle (its rate, its availability)
 is seen through the contract too. The vehicles are therefore kept in a `Fleet`,
 a store of vehicles addressed by `VehicleRef`, and a contract holds a reference
 into it. Creating a contract returns the contract together with the updated
 fleet, because creation marks the rented vehicle as unavailable.
 */
module Contracts {
  import opened Vehicles
  import opened Clients

  /** The store of vehicle objects; a `VehicleRef` addresses one of them. */
  type Fleet = seq<Vehicle>
  type VehicleRef = nat

  /** `ref` designates a vehicle of `fleet`. */
  predicate ValidRef(fleet: Fleet, ref: VehicleRef)
  {
    ref < |fleet|
  }

  datatype Contract = Contract(client: Client, vehicle: VehicleRef, days: int, total: real)

  /** The outcome of creating a contract: the contract and the fleet after the
      rented vehicle was marked unavailable. */
  datatype Created = Created(contract: Contract, fleet: Fleet)

  /** `after` differs from `before` at most in the vehicle at `ref`. */
  predicate OthersUnchanged(before: Fleet, after: Fleet, ref: VehicleRef)
  {
    && |after| == |before|
    && forall i :: 0 <= i < |before| && i != ref ==> after[i] == before[i]
  }

  /** Creates a contract for `client` renting the vehicle at `ref` for `days`
      days. The total is the vehicle's price at this moment; the vehicle is then
      marked unavailable whatever its previous state: nothing checks that it was
      free, so a vehicle can be rented twice. */
  function Create(fleet: Fleet, client: Client, ref: VehicleRef, days: int): (r: Created)
    requires ValidRef(fleet, ref)
    ensures r.contract.client == client && r.contract.vehicle == ref && r.contract.days == days
    ensures r.contract.total == Price(fleet[ref], days)
    ensures ValidRef(r.fleet, ref) && !IsAvailable(r.fleet[ref])
    ensures SameDescription(fleet[ref], r.fleet[ref])
    ensures OthersUnchanged(fleet, r.fleet, ref)
  {
    var total := Price(fleet[ref], days);
    Created(Contract(client, ref, days, total), fleet[ref := SetAvailability(fleet[ref], false)])
  }

  /** The client the contract was made for. */
  function GetClient(c: Contract): Client
  {
    c.client
  }

  /** The vehicle a contract refers to, as it is NOW in the fleet, not as it
      was when the contract was created. */
  function GetVehicle(fleet: Fleet, c: Contract): Vehicle
    requires ValidRef(fleet, c.vehicle)
  {
    fleet[c.vehicle]
  }

  /** The rental duration the contract was made for. */
  function GetDays(c: Contract): int
  {
    c.days
  }

  /** The total fixed when the contract was created. */
  function GetTotal(c: Contract): real
  {
    c.total
  }

  /** Changes the daily rate of the vehicle at `ref`, as any holder of that
      vehicle may do; no other vehicle changes. */
  function SetRateAt(fleet: Fleet, ref: VehicleRef, rate: real): (r: Fleet)
    requires ValidRef(fleet, ref)
    ensures ValidRef(r, ref) && r[ref].dailyRate == rate
    ensures r[ref].available == fleet[ref].available
    ensures r[ref].Car? == fleet[ref].Car? && (r[ref].Moto? ==> r[ref].cc == fleet[ref].cc)
    ensures r[ref].brand == fleet[ref].brand && r[ref].model == fleet[ref].model && r[ref].year == fleet[ref].year
    ensures r[ref].Car? ==> r[ref].doors == fleet[ref].doors
    ensures OthersUnchanged(fleet, r, ref)
  {
    fleet[ref := SetDailyRate(fleet[ref], rate)]
  }

  /** Sets the availability flag of the vehicle at `ref`; no other vehicle
      changes and the vehicle keeps its description. */
  function SetAvailabilityAt(fleet: Fleet, ref: VehicleRef, state: bool): (r: Fleet)
    requires ValidRef(fleet, ref)
    ensures ValidRef(r, ref) && IsAvailable(r[ref]) == state
    ensures SameDescription(fleet[ref], r[ref])
    ensures OthersUnchanged(fleet, r, ref)
  {
    fleet[ref := SetAvailability(fleet[ref], state)]
  }

  // ---------------------------------------------------------------------
  // Properties of contract creation
  // ---------------------------------------------------------------------

  /** Right after creation, the contract reports exactly the arguments it was
      created with, the vehicle's price for those days, and a vehicle that is
      no longer available. */
  lemma CreateGetters(fleet: Fleet, client: Client, ref: VehicleRef, days: int)
    requires ValidRef(fleet, ref)
    ensures var r := Create(fleet, client, ref, days);
      && GetClient(r.contract) == client
      && GetDays(r.contract) == days
      && GetTotal(r.contract) == Price(fleet[ref], days)
      && GetVehicle(r.fleet, r.contract) == SetAvailability(fleet[ref], false)
  {
  }

  /** A contract shares its vehicle with the fleet: a change made to that
      vehicle after creation, to its availability or to its rate, is what the
      contract reports; the vehicle is otherwise the one it was before. */
  lemma ContractSeesVehicleChanges(fleet: Fleet, c: Contract, state: bool, rate: real)
    requires ValidRef(fleet, c.vehicle)
    ensures IsAvailable(GetVehicle(SetAvailabilityAt(fleet, c.vehicle, state), c)) == state
    ensures GetVehicle(SetRateAt(fleet, c.vehicle, rate), c).dailyRate == rate
    ensures GetVehicle(SetRateAt(fleet, c.vehicle, rate), c) == SetDailyRate(GetVehicle(fleet, c), rate)
    ensures SameDescription(GetVehicle(SetAvailabilityAt(fleet, c.vehicle, state), c), GetVehicle(fleet, c))
  {
  }

  /** Creation does not depend on whether the vehicle was available: renting a
      vehicle that is already rented out succeeds, costs the same and leaves the
      same fleet as renting it while it was free. */
  lemma CreateIgnoresPriorAvailability(fleet: Fleet, client: Client, ref: VehicleRef, days: int, prior: bool)
    requires ValidRef(fleet, ref)
    ensures Create(SetAvailabilityAt(fleet, ref, prior), client, ref, days) == Create(fleet, client, ref, days)
  {
    var f' := SetAvailabilityAt(fleet, ref, prior);
    PriceIgnoresAvailability(fleet[ref], prior, days);
    assert f'[ref := SetAvailability(f'[ref], false)] == fleet[ref := SetAvailability(fleet[ref], false)];
  }

  /** Double booking: renting the same vehicle a second time is accepted, is
      priced like the first rental would have been for those days, and leaves
      the fleet as the first rental left it. */
  lemma DoubleBooking(fleet: Fleet, c1: Client, c2: Client, ref: VehicleRef, d1: int, d2: int)
    requires ValidRef(fleet, ref)
    ensures var first := Create(fleet, c1, ref, d1);
      var second := Create(first.fleet, c2, ref, d2);
      && second.fleet == first.fleet
      && second.contract.total == Create(fleet, c2, ref, d2).contract.total
  {
    var first := Create(fleet, c1, ref, d1);
    PriceIgnoresAvailability(fleet[ref], false, d2);
    assert first.fleet[ref := SetAvailability(first.fleet[ref], false)] == first.fleet;
  }

  /** The total is frozen at creation. Changing the vehicle's daily rate
      afterwards is seen through the contract, yet the contract's total stays
      the price computed at creation; when the rate really changed and the
      rental is not empty, the total no longer matches the vehicle's current
      price. */
  lemma TotalFrozen(fleet: Fleet, client: Client, ref: VehicleRef, days: int, rate: real)
    requires ValidRef(fleet, ref)
    ensures var r := Create(fleet, client, ref, days);
      var later := SetRateAt(r.fleet, ref, rate);
      && GetVehicle(later, r.contract).dailyRate == rate
      && GetTotal(r.contract) == Price(fleet[ref], days)
      && (rate != fleet[ref].dailyRate && days != 0 ==>
            Price(GetVehicle(later, r.contract), days) != GetTotal(r.contract))
  {
    var r := Create(fleet, client, ref, days);
    var later := SetRateAt(r.fleet, ref, rate);
    var before, now := fleet[ref], later[ref];
    if rate != before.dailyRate && days != 0 {
      PriceIsScaledBase(before, days);
      PriceIsScaledBase(now, days);
      assert PriceFactor(now, days) == PriceFactor(before, days);
      ScaleInjective(before.dailyRate, rate, (days as real) * PriceFactor(before, days));
    }
  }

  /** Scaling by a non-zero factor is injective. */
  lemma ScaleInjective(a: real, b: real, k: real)
    requires a != b && k != 0.0
    ensures a * k != b * k
  {
    assert a * k - b * k == (a - b) * k;
  }
}
