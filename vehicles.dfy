/**
 * A `Vehicle` reference: one of the three concrete classes of the model.
 * The functions and methods here dispatch to the class the reference
 * points to, as Java's virtual calls do.
 */
module Vehicles {
  import opened Wrappers
  import opened Int32
  import opened Ordering
  import StableSort
  import VehicleBase
  import Cars
  import Trucks
  import Airplanes

  datatype Vehicle = CarV(car: Cars.Car) | TruckV(truck: Trucks.Truck) | PlaneV(plane: Airplanes.Airplane)

  /** The object a reference points to. */
  function Obj(v: Vehicle): object
  {
    match v
    case CarV(c) => c
    case TruckV(t) => t
    case PlaneV(p) => p
  }

  /** The objects of a list of vehicles. */
  function Objs(s: seq<Vehicle>): set<object>
  {
    set v | v in s :: Obj(v)
  }

  function Id(v: Vehicle): string
  {
    match v
    case CarV(c) => c.id
    case TruckV(t) => t.id
    case PlaneV(p) => p.id
  }

  function Model(v: Vehicle): string
  {
    match v
    case CarV(c) => c.model
    case TruckV(t) => t.model
    case PlaneV(p) => p.model
  }

  function MaxSpeed(v: Vehicle): real
  {
    match v
    case CarV(c) => c.maxSpeed
    case TruckV(t) => t.maxSpeed
    case PlaneV(p) => p.maxSpeed
  }

  /**
   * What a vehicle's methods can change: the fuel, mileage and maintenance
   * fields, the passengers on board and the cargo aboard (zero for a class
   * that carries none).
   */
  datatype VState = VState(core: VehicleBase.Core, passengers: i32, cargo: real)

  function State(v: Vehicle): VState
    reads Obj(v)
  {
    match v
    case CarV(c) => VState(c.Core(), c.currentPassengers, 0.0)
    case TruckV(t) => VState(t.Core(), 0, t.currentCargo)
    case PlaneV(p) => VState(p.Core(), p.currentPassengers, p.currentCargo)
  }

  function FuelLevel(v: Vehicle): real
    reads Obj(v)
  {
    State(v).core.fuelLevel
  }

  /** `calculateFuelEfficiency()`: 15 for a car, 8 or 7.2 for a truck by its load, 5 for an airplane. */
  function Efficiency(v: Vehicle): (e: real)
    reads Obj(v)
    ensures e > 0.0
    ensures v.TruckV? ==> e == Trucks.CargoEfficiency(State(v).cargo, Trucks.CargoCapacity)
  {
    match v
    case CarV(c) => c.Efficiency()
    case TruckV(t) => t.Efficiency()
    case PlaneV(p) => p.Efficiency()
  }

  /** `needsMaintenance()` of the vehicle's class. */
  function NeedsMaintenance(v: Vehicle): (due: bool)
    reads Obj(v)
    ensures v.CarV? ==> (due <==> v.car.currentMileage - v.car.mileageAtLastService > 10000.0 || v.car.maintenanceNeeded)
    ensures v.TruckV? ==> (due <==> v.truck.currentMileage - v.truck.mileageAtLastService > 10000.0 || v.truck.maintenanceNeeded)
    ensures v.PlaneV? ==> (due <==> v.plane.currentMileage - v.plane.mileageAtLastService > 10000.0 || v.plane.maintenanceNeeded)
  {
    VehicleBase.NeedsMaintenance(State(v).core)
  }

  /** The Java types a vehicle can be tested against with `instanceof` / `Class.isInstance`. */
  datatype VehicleClass =
    | VehicleType | LandVehicleType | AirVehicleType | WaterVehicleType
    | CarType | TruckType | AirplaneType
    | FuelConsumableType | PassengerCarrierType | CargoCarrierType | MaintainableType

  /** The class declarations: every type a concrete class extends or implements, itself included. */
  function Supertypes(v: Vehicle): set<VehicleClass>
  {
    match v
    case CarV(_) => {VehicleType, LandVehicleType, CarType, FuelConsumableType, PassengerCarrierType, MaintainableType}
    case TruckV(_) => {VehicleType, LandVehicleType, TruckType, FuelConsumableType, CargoCarrierType, MaintainableType}
    case PlaneV(_) => {VehicleType, AirVehicleType, AirplaneType, FuelConsumableType, PassengerCarrierType, CargoCarrierType, MaintainableType}
  }

  /** `v instanceof t`, type by type. */
  function IsInstance(v: Vehicle, t: VehicleClass): (r: bool)
    ensures r <==> t in Supertypes(v)
  {
    match t
    case VehicleType => true
    case LandVehicleType => v.CarV? || v.TruckV?
    case AirVehicleType => v.PlaneV?
    case WaterVehicleType => false
    case CarType => v.CarV?
    case TruckType => v.TruckV?
    case AirplaneType => v.PlaneV?
    case FuelConsumableType => true
    case PassengerCarrierType => v.CarV? || v.PlaneV?
    case CargoCarrierType => v.TruckV? || v.PlaneV?
    case MaintainableType => true
  }

  /** `v.move(distance)`. */
  method Move(v: Vehicle, distance: real) returns (r: Outcome)
    modifies Obj(v)
    ensures Travelled(old(State(v)), old(Efficiency(v)), distance, r, State(v))
    ensures Efficiency(v) == old(Efficiency(v))
  {
    match v
    case CarV(c) => r := c.Move(distance);
    case TruckV(t) => r := t.Move(distance);
    case PlaneV(p) => r := p.Move(distance);
  }

  /**
   * What `move(distance)` does to a vehicle whose state was `before` and
   * whose efficiency is `eff`: the fuel and mileage change as the base
   * class's `move` says, the passengers and the cargo stay.
   */
  predicate Travelled(before: VState, eff: real, distance: real, o: Outcome, after: VState)
    requires eff > 0.0
  {
    (o, after.core) == VehicleBase.Move(before.core, eff, distance) &&
    after.passengers == before.passengers && after.cargo == before.cargo
  }

  /** `((Maintainable) v).performMaintenance()`. */
  method PerformMaintenance(v: Vehicle)
    modifies Obj(v)
    ensures State(v) == old(State(v)).(core := VehicleBase.PerformMaintenance(old(State(v).core)))
    ensures Efficiency(v) == old(Efficiency(v))
  {
    match v
    case CarV(c) => c.PerformMaintenance();
    case TruckV(t) => t.PerformMaintenance();
    case PlaneV(p) => p.PerformMaintenance();
  }

  /**
   * `a.compareTo(b)`, i.e. `Double.compare(b's efficiency, a's efficiency)`:
   * the natural order puts the more efficient vehicle first.
   */
  function CompareTo(a: Vehicle, b: Vehicle): (r: int)
    reads Obj(a), Obj(b)
    ensures r < 0 <==> Efficiency(a) > Efficiency(b)
    ensures r == 0 <==> Efficiency(a) == Efficiency(b)
    ensures r > 0 <==> Efficiency(a) < Efficiency(b)
  {
    DoubleCompare(Efficiency(b), Efficiency(a))
  }

  /** The efficiencies of the vehicles of `s`, read once. */
  function Efficiencies(s: seq<Vehicle>): (m: map<Vehicle, real>)
    reads Objs(s)
    ensures forall v | v in s :: v in m && m[v] == Efficiency(v)
  {
    map v | v in s :: Efficiency(v)
  }

  /**
   * `compareTo` over a snapshot of the efficiencies, as a comparator value.
   * Sorting does not change any vehicle, so the snapshot holds throughout.
   */
  function NaturalOrder(effs: map<Vehicle, real>): (Vehicle, Vehicle) -> int
  {
    (a: Vehicle, b: Vehicle) => if a in effs && b in effs then DoubleCompare(effs[b], effs[a]) else 0
  }

  /** `compareTo` is antisymmetric and transitive, which `Collections.sort` demands of it. */
  lemma NaturalOrderIsComparator(s: seq<Vehicle>)
    ensures StableSort.ComparatorOn(NaturalOrder(Efficiencies(s)), s)
    ensures forall a, b | a in s && b in s :: NaturalOrder(Efficiencies(s))(a, b) == CompareTo(a, b)
  {
    var cmp := NaturalOrder(Efficiencies(s));
    forall a, b | a in s && b in s ensures Sign(cmp(a, b)) == -Sign(cmp(b, a)) {
      assert cmp(a, b) == DoubleCompare(Efficiency(b), Efficiency(a));
      assert cmp(b, a) == DoubleCompare(Efficiency(a), Efficiency(b));
    }
    forall a, b, c | a in s && b in s && c in s && cmp(a, b) <= 0 && cmp(b, c) <= 0
      ensures cmp(a, c) <= 0
    {
      assert cmp(a, b) == CompareTo(a, b) && cmp(b, c) == CompareTo(b, c) && cmp(a, c) == CompareTo(a, c);
    }
  }

  /**
   * A permutation of `before` that is sorted by the snapshot comparator is
   * in `compareTo` order: efficiencies never increase along it.
   */
  lemma NaturalOrderSorted(before: seq<Vehicle>, after: seq<Vehicle>, effs: map<Vehicle, real>)
    requires multiset(after) == multiset(before)
    requires forall v | v in before :: v in effs && effs[v] == Efficiency(v)
    requires StableSort.Sorted(after, NaturalOrder(effs))
    ensures forall i, j | 0 <= i < j < |after| :: CompareTo(after[i], after[j]) <= 0
    ensures forall i, j | 0 <= i < j < |after| :: Efficiency(after[i]) >= Efficiency(after[j])
  {
    forall i, j | 0 <= i < j < |after| ensures CompareTo(after[i], after[j]) <= 0 {
      assert after[i] in multiset(before) && after[j] in multiset(before);
      assert NaturalOrder(effs)(after[i], after[j]) <= 0;
    }
  }

  /** A vehicle's id is a constant of its object, so vehicles with different ids are different objects. */
  lemma DistinctIdsDistinctObjects(s: seq<Vehicle>)
    requires StableSort.DistinctBy(s, Id)
    ensures forall i, j | 0 <= i < |s| && 0 <= j < |s| && i != j :: Obj(s[i]) != Obj(s[j])
  {
    forall i, j | 0 <= i < |s| && 0 <= j < |s| && i != j ensures Obj(s[i]) != Obj(s[j]) {
      SameObjectSameVehicle(s[i], s[j]);
      assert Id(s[i]) != Id(s[j]) by {
        if i < j { assert Id(s[i]) != Id(s[j]); } else { assert Id(s[j]) != Id(s[i]); }
      }
    }
  }

  /** Two references to one object are the same reference. */
  lemma SameObjectSameVehicle(a: Vehicle, b: Vehicle)
    ensures Obj(a) == Obj(b) ==> a == b
  {
  }
}
