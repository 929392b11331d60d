/** A truck: a land vehicle with a tank, a 5000 kg cargo hold and a maintenance record. */
module Trucks {
  import opened Wrappers
  import opened Int32
  import VehicleBase

  /** The hold's capacity in kilograms. */
  const CargoCapacity: real := 5000.0

  /**
   * `calculateFuelEfficiency()`: 8 distance units per fuel unit, cut by ten
   * per cent while the truck carries more than half its capacity.
   */
  function CargoEfficiency(cargo: real, capacity: real): (e: real)
    ensures e > 0.0
    ensures e < 8.0 <==> cargo > capacity * 0.5
    ensures e == 8.0 || e == 8.0 * 0.9
  {
    if cargo > capacity * 0.5 then 8.0 * 0.9 else 8.0
  }

  /** Loading more never makes the truck more economical. */
  lemma HeavierIsNoMoreEfficient(c1: real, c2: real, capacity: real)
    requires c1 <= c2
    ensures CargoEfficiency(c2, capacity) <= CargoEfficiency(c1, capacity)
  {
  }

  /** With the hold more than half full, a trip burns a ninth more fuel. */
  lemma HeavyTripCostsMore(distance: real, capacity: real, cargo: real)
    requires cargo > capacity * 0.5 && distance > 0.0
    ensures distance / CargoEfficiency(cargo, capacity) == (distance / 8.0) * (10.0 / 9.0)
  {
  }

  class Truck {
    const id: string
    const model: string
    const maxSpeed: real
    const numWheels: i32
    const cargoCapacity: real := CargoCapacity
    var currentMileage: real
    var mileageAtLastService: real
    var fuelLevel: real
    var currentCargo: real
    var maintenanceNeeded: bool
    var lastFueledAt: real

    /** The fuel, mileage and maintenance fields as one value. */
    function Core(): VehicleBase.Core
      reads this
    {
      VehicleBase.Core(fuelLevel, currentMileage, lastFueledAt, mileageAtLastService, maintenanceNeeded)
    }

    constructor (id: string, model: string, maxSpeed: real, numWheels: i32)
      requires VehicleBase.IdAccepted(Some(id))
      ensures this.id == id && this.model == model && this.maxSpeed == maxSpeed && this.numWheels == numWheels
      ensures Core() == VehicleBase.Initial && currentCargo == 0.0
    {
      this.id := id;
      this.model := model;
      this.maxSpeed := maxSpeed;
      this.numWheels := numWheels;
      currentMileage := 0.0;
      mileageAtLastService := 0.0;
      fuelLevel := 0.0;
      currentCargo := 0.0;
      maintenanceNeeded := false;
      lastFueledAt := 0.0;
    }

    function Efficiency(): (e: real)
      reads this
      ensures e == 8.0 || e == 8.0 * 0.9
      ensures e < 8.0 <==> currentCargo > cargoCapacity * 0.5
    {
      CargoEfficiency(currentCargo, cargoCapacity)
    }

    method SetCurrentMileage(mileage: real)
      modifies this
      ensures Core() == old(Core()).(mileage := mileage)
      ensures currentCargo == old(currentCargo)
    {
      currentMileage := mileage;
    }

    method SetMileageAtLastService(mileage: real)
      modifies this
      ensures Core() == old(Core()).(lastService := mileage)
      ensures currentCargo == old(currentCargo)
    {
      mileageAtLastService := mileage;
    }

    method ConsumeFuel(distance: real) returns (r: Result<real>)
      modifies this
      ensures (r, Core()) == VehicleBase.ConsumeFuel(old(Core()), old(Efficiency()), distance)
      ensures currentCargo == old(currentCargo)
    {
      var fuelConsumed := distance / Efficiency();
      if fuelConsumed > fuelLevel {
        return Failure(InsufficientFuel);
      }
      fuelLevel := fuelLevel - fuelConsumed;
      r := Success(fuelConsumed);
    }

    method Move(distance: real) returns (r: Outcome)
      modifies this
      ensures (r, Core()) == VehicleBase.Move(old(Core()), old(Efficiency()), distance)
      ensures currentCargo == old(currentCargo)
    {
      if distance < 0.0 {
        return Fail(InvalidOperation);
      }
      var fuelNeeded := distance / Efficiency();
      if fuelNeeded > fuelLevel {
        return Fail(InsufficientFuel);
      }
      var consumed := ConsumeFuel(distance);
      assert consumed.Success?;
      currentMileage := currentMileage + distance;
      r := Pass;
    }

    method Refuel(amount: real) returns (r: Outcome)
      modifies this
      ensures (r, Core()) == VehicleBase.Refuel(old(Core()), amount)
      ensures currentCargo == old(currentCargo)
    {
      if amount <= 0.0 {
        return Fail(InvalidOperation);
      }
      fuelLevel := fuelLevel + amount;
      lastFueledAt := currentMileage;
      r := Pass;
    }

    method LoadCargo(weight: real) returns (r: Outcome)
      modifies this
      ensures (r, currentCargo) == VehicleBase.LoadCargo(old(currentCargo), cargoCapacity, weight)
      ensures Core() == old(Core())
    {
      if currentCargo + weight > cargoCapacity {
        return Fail(Overload);
      }
      currentCargo := currentCargo + weight;
      r := Pass;
    }

    method UnloadCargo(weight: real) returns (r: Outcome)
      modifies this
      ensures (r, currentCargo) == VehicleBase.UnloadCargo(old(currentCargo), weight)
      ensures Core() == old(Core())
    {
      if weight > currentCargo {
        return Fail(InvalidOperation);
      }
      currentCargo := currentCargo - weight;
      r := Pass;
    }

    method ScheduleMaintenance()
      modifies this
      ensures Core() == VehicleBase.ScheduleMaintenance(old(Core()))
      ensures currentCargo == old(currentCargo)
    {
      maintenanceNeeded := true;
    }

    method PerformMaintenance()
      modifies this
      ensures Core() == VehicleBase.PerformMaintenance(old(Core()))
      ensures currentCargo == old(currentCargo)
    {
      maintenanceNeeded := false;
      mileageAtLastService := currentMileage;
    }
  }

  /** `new Truck(id, model, maxSpeed, numWheels)`: throws for a null or blank id. */
  method NewTruck(id: Option<string>, model: string, maxSpeed: real, numWheels: i32) returns (r: Result<Truck>)
    ensures r.Failure? <==> !VehicleBase.IdAccepted(id)
    ensures r.Failure? ==> r.error == IllegalArgument
    ensures r.Success? ==> fresh(r.value) && r.value.id == id.value && r.value.model == model
    ensures r.Success? ==> r.value.maxSpeed == maxSpeed && r.value.numWheels == numWheels
    ensures r.Success? ==> r.value.Core() == VehicleBase.Initial && r.value.currentCargo == 0.0
  {
    if !VehicleBase.IdAccepted(id) {
      return Failure(IllegalArgument);
    }
    var truck := new Truck(id.value, model, maxSpeed, numWheels);
    r := Success(truck);
  }
}
