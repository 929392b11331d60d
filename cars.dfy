/** A car: a land vehicle with four wheels, a tank, up to five passengers and a maintenance record. */
module Cars {
  import opened Wrappers
  import opened Int32
  import VehicleBase

  class Car {
    const id: string
    const model: string
    const maxSpeed: real
    const numWheels: i32 := 4
    const passengerCapacity: i32 := 5
    var currentMileage: real
    var mileageAtLastService: real
    var fuelLevel: real
    var currentPassengers: i32
    var maintenanceNeeded: bool
    var lastFueledAt: real

    /** The fuel, mileage and maintenance fields as one value. */
    function Core(): VehicleBase.Core
      reads this
    {
      VehicleBase.Core(fuelLevel, currentMileage, lastFueledAt, mileageAtLastService, maintenanceNeeded)
    }

    constructor (id: string, model: string, maxSpeed: real)
      requires VehicleBase.IdAccepted(Some(id))
      ensures this.id == id && this.model == model && this.maxSpeed == maxSpeed
      ensures Core() == VehicleBase.Initial && currentPassengers == 0
    {
      this.id := id;
      this.model := model;
      this.maxSpeed := maxSpeed;
      currentMileage := 0.0;
      mileageAtLastService := 0.0;
      fuelLevel := 0.0;
      currentPassengers := 0;
      maintenanceNeeded := false;
      lastFueledAt := 0.0;
    }

    /** `calculateFuelEfficiency()`: 15 distance units per fuel unit. */
    function Efficiency(): (e: real)
      ensures e == 15.0
    {
      15.0
    }

    method SetCurrentMileage(mileage: real)
      modifies this
      ensures Core() == old(Core()).(mileage := mileage)
      ensures currentPassengers == old(currentPassengers)
    {
      currentMileage := mileage;
    }

    method SetMileageAtLastService(mileage: real)
      modifies this
      ensures Core() == old(Core()).(lastService := mileage)
      ensures currentPassengers == old(currentPassengers)
    {
      mileageAtLastService := mileage;
    }

    method ConsumeFuel(distance: real) returns (r: Result<real>)
      modifies this
      ensures (r, Core()) == VehicleBase.ConsumeFuel(old(Core()), Efficiency(), distance)
      ensures currentPassengers == old(currentPassengers)
    {
      var fuelConsumed := distance / Efficiency();
      if fuelConsumed > fuelLevel {
        return Failure(InsufficientFuel);
      }
      fuelLevel := fuelLevel - fuelConsumed;
      r := Success(fuelConsumed);
    }

    method Move(distance: real) returns (r: Outcome)
      modifies this
      ensures (r, Core()) == VehicleBase.Move(old(Core()), Efficiency(), distance)
      ensures currentPassengers == old(currentPassengers)
    {
      if distance < 0.0 {
        return Fail(InvalidOperation);
      }
      var fuelNeeded := distance / Efficiency();
      if fuelNeeded > fuelLevel {
        return Fail(InsufficientFuel);
      }
      var consumed := ConsumeFuel(distance);
      assert consumed.Success?;
      currentMileage := currentMileage + distance;
      r := Pass;
    }

    method Refuel(amount: real) returns (r: Outcome)
      modifies this
      ensures (r, Core()) == VehicleBase.Refuel(old(Core()), amount)
      ensures currentPassengers == old(currentPassengers)
    {
      if amount <= 0.0 {
        return Fail(InvalidOperation);
      }
      fuelLevel := fuelLevel + amount;
      lastFueledAt := currentMileage;
      r := Pass;
    }

    method BoardPassengers(count: i32) returns (r: Outcome)
      modifies this
      ensures (r, currentPassengers) == VehicleBase.Board(old(currentPassengers), passengerCapacity, count)
      ensures Core() == old(Core())
    {
      if Add(currentPassengers, count) > passengerCapacity {
        return Fail(Overload);
      }
      currentPassengers := Add(currentPassengers, count);
      r := Pass;
    }

    method DisembarkPassengers(count: i32) returns (r: Outcome)
      modifies this
      ensures (r, currentPassengers) == VehicleBase.Disembark(old(currentPassengers), count)
      ensures Core() == old(Core())
    {
      if count > currentPassengers {
        return Fail(InvalidOperation);
      }
      currentPassengers := Sub(currentPassengers, count);
      r := Pass;
    }

    method ScheduleMaintenance()
      modifies this
      ensures Core() == VehicleBase.ScheduleMaintenance(old(Core()))
      ensures currentPassengers == old(currentPassengers)
    {
      maintenanceNeeded := true;
    }

    method PerformMaintenance()
      modifies this
      ensures Core() == VehicleBase.PerformMaintenance(old(Core()))
      ensures currentPassengers == old(currentPassengers)
    {
      maintenanceNeeded := false;
      mileageAtLastService := currentMileage;
    }
  }

  /** `new Car(id, model, maxSpeed)`: throws for a null or blank id, otherwise a fresh car with an empty tank. */
  method NewCar(id: Option<string>, model: string, maxSpeed: real) returns (r: Result<Car>)
    ensures r.Failure? <==> !VehicleBase.IdAccepted(id)
    ensures r.Failure? ==> r.error == IllegalArgument
    ensures r.Success? ==> fresh(r.value) && r.value.id == id.value && r.value.model == model
    ensures r.Success? ==> r.value.maxSpeed == maxSpeed && r.value.numWheels == 4
    ensures r.Success? ==> r.value.Core() == VehicleBase.Initial && r.value.currentPassengers == 0
  {
    if !VehicleBase.IdAccepted(id) {
      return Failure(IllegalArgument);
    }
    var car := new Car(id.value, model, maxSpeed);
    r := Success(car);
  }
}
