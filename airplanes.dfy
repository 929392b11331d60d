/** An airplane: an air vehicle with a tank, 200 seats, a 10000 kg hold and a maintenance record. */
module Airplanes {
  import opened Wrappers
  import opened Int32
  import VehicleBase

  class Airplane {
    const id: string
    const model: string
    const maxSpeed: real
    const maxAltitude: real
    const passengerCapacity: i32 := 200
    const cargoCapacity: real := 10000.0
    var currentMileage: real
    var mileageAtLastService: real
    var fuelLevel: real
    var currentPassengers: i32
    var currentCargo: real
    var maintenanceNeeded: bool
    var lastFueledAt: real

    /** The fuel, mileage and maintenance fields as one value. */
    function Core(): VehicleBase.Core
      reads this
    {
      VehicleBase.Core(fuelLevel, currentMileage, lastFueledAt, mileageAtLastService, maintenanceNeeded)
    }

    constructor (id: string, model: string, maxSpeed: real, maxAltitude: real)
      requires VehicleBase.IdAccepted(Some(id))
      ensures this.id == id && this.model == model && this.maxSpeed == maxSpeed && this.maxAltitude == maxAltitude
      ensures Core() == VehicleBase.Initial && currentPassengers == 0 && currentCargo == 0.0
    {
      this.id := id;
      this.model := model;
      this.maxSpeed := maxSpeed;
      this.maxAltitude := maxAltitude;
      currentMileage := 0.0;
      mileageAtLastService := 0.0;
      fuelLevel := 0.0;
      currentPassengers := 0;
      currentCargo := 0.0;
      maintenanceNeeded := false;
      lastFueledAt := 0.0;
    }

    /** `calculateFuelEfficiency()`: 5 distance units per fuel unit. */
    function Efficiency(): (e: real)
      ensures e == 5.0
    {
      5.0
    }

    method SetCurrentMileage(mileage: real)
      modifies this
      ensures Core() == old(Core()).(mileage := mileage)
      ensures currentPassengers == old(currentPassengers) && currentCargo == old(currentCargo)
    {
      currentMileage := mileage;
    }

    method SetMileageAtLastService(mileage: real)
      modifies this
      ensures Core() == old(Core()).(lastService := mileage)
      ensures currentPassengers == old(currentPassengers) && currentCargo == old(currentCargo)
    {
      mileageAtLastService := mileage;
    }

    method ConsumeFuel(distance: real) returns (r: Result<real>)
      modifies this
      ensures (r, Core()) == VehicleBase.ConsumeFuel(old(Core()), Efficiency(), distance)
      ensures currentPassengers == old(currentPassengers) && currentCargo == old(currentCargo)
    {
      var fuelConsumed := distance / Efficiency();
      if fuelConsumed > fuelLevel {
        return Failure(InsufficientFuel);
      }
      fuelLevel := fuelLevel - fuelConsumed;
      r := Success(fuelConsumed);
    }

    method Move(distance: real) returns (r: Outcome)
      modifies this
      ensures (r, Core()) == VehicleBase.Move(old(Core()), Efficiency(), distance)
      ensures currentPassengers == old(currentPassengers) && currentCargo == old(currentCargo)
    {
      if distance < 0.0 {
        return Fail(InvalidOperation);
      }
      var fuelNeeded := distance / Efficiency();
      if fuelNeeded > fuelLevel {
        return Fail(InsufficientFuel);
      }
      var consumed := ConsumeFuel(distance);
      assert consumed.Success?;
      currentMileage := currentMileage + distance;
      r := Pass;
    }

    method Refuel(amount: real) returns (r: Outcome)
      modifies this
      ensures (r, Core()) == VehicleBase.Refuel(old(Core()), amount)
      ensures currentPassengers == old(currentPassengers) && currentCargo == old(currentCargo)
    {
      if amount <= 0.0 {
        return Fail(InvalidOperation);
      }
      fuelLevel := fuelLevel + amount;
      lastFueledAt := currentMileage;
      r := Pass;
    }

    method BoardPassengers(count: i32) returns (r: Outcome)
      modifies this
      ensures (r, currentPassengers) == VehicleBase.Board(old(currentPassengers), passengerCapacity, count)
      ensures Core() == old(Core()) && currentCargo == old(currentCargo)
    {
      if Add(currentPassengers, count) > passengerCapacity {
        return Fail(Overload);
      }
      currentPassengers := Add(currentPassengers, count);
      r := Pass;
    }

    method DisembarkPassengers(count: i32) returns (r: Outcome)
      modifies this
      ensures (r, currentPassengers) == VehicleBase.Disembark(old(currentPassengers), count)
      ensures Core() == old(Core()) && currentCargo == old(currentCargo)
    {
      if count > currentPassengers {
        return Fail(InvalidOperation);
      }
      currentPassengers := Sub(currentPassengers, count);
      r := Pass;
    }

    method LoadCargo(weight: real) returns (r: Outcome)
      modifies this
      ensures (r, currentCargo) == VehicleBase.LoadCargo(old(currentCargo), cargoCapacity, weight)
      ensures Core() == old(Core()) && currentPassengers == old(currentPassengers)
    {
      if currentCargo + weight > cargoCapacity {
        return Fail(Overload);
      }
      currentCargo := currentCargo + weight;
      r := Pass;
    }

    method UnloadCargo(weight: real) returns (r: Outcome)
      modifies this
      ensures (r, currentCargo) == VehicleBase.UnloadCargo(old(currentCargo), weight)
      ensures Core() == old(Core()) && currentPassengers == old(currentPassengers)
    {
      if weight > currentCargo {
        return Fail(InvalidOperation);
      }
      currentCargo := currentCargo - weight;
      r := Pass;
    }

    method ScheduleMaintenance()
      modifies this
      ensures Core() == VehicleBase.ScheduleMaintenance(old(Core()))
      ensures currentPassengers == old(currentPassengers) && currentCargo == old(currentCargo)
    {
      maintenanceNeeded := true;
    }

    method PerformMaintenance()
      modifies this
      ensures Core() == VehicleBase.PerformMaintenance(old(Core()))
      ensures currentPassengers == old(currentPassengers) && currentCargo == old(currentCargo)
    {
      maintenanceNeeded := false;
      mileageAtLastService := currentMileage;
    }
  }

  /** `new Airplane(id, model, maxSpeed, maxAltitude)`: throws for a null or blank id. */
  method NewAirplane(id: Option<string>, model: string, maxSpeed: real, maxAltitude: real) returns (r: Result<Airplane>)
    ensures r.Failure? <==> !VehicleBase.IdAccepted(id)
    ensures r.Failure? ==> r.error == IllegalArgument
    ensures r.Success? ==> fresh(r.value) && r.value.id == id.value && r.value.model == model
    ensures r.Success? ==> r.value.maxSpeed == maxSpeed && r.value.maxAltitude == maxAltitude
    ensures r.Success? ==> r.value.Core() == VehicleBase.Initial && r.value.currentPassengers == 0
    ensures r.Success? ==> r.value.currentCargo == 0.0
  {
    if !VehicleBase.IdAccepted(id) {
      return Failure(IllegalArgument);
    }
    var plane := new Airplane(id.value, model, maxSpeed, maxAltitude);
    r := Success(plane);
  }
}
