/**
 * The base-class contract of every vehicle: the constructor's id check and
 * the fuel, mileage and maintenance state that Car, Truck and Airplane keep
 * and update with the same method bodies. The functions here are the
 * specifications those classes' methods are proved against.
 */
module VehicleBase {
  import opened Wrappers
  import opened Int32

  // ---------------------------------------------------------------- the id check

  /** `String.trim` removes every leading and trailing character up to U+0020. */
  predicate Blank(c: char)
  {
    c <= ' '
  }

  function TrimStart(s: string): string
  {
    if s != [] && Blank(s[0]) then TrimStart(s[1..]) else s
  }

  function TrimEnd(s: string): string
  {
    if s != [] && Blank(s[|s| - 1]) then TrimEnd(s[..|s| - 1]) else s
  }

  function Trim(s: string): string
  {
    TrimEnd(TrimStart(s))
  }

  lemma {:induction false} TrimStartEmptyIffBlank(s: string)
    ensures TrimStart(s) == [] <==> forall i :: 0 <= i < |s| ==> Blank(s[i])
    ensures TrimStart(s) != [] ==> !Blank(TrimStart(s)[0])
  {
    if s != [] && Blank(s[0]) {
      TrimStartEmptyIffBlank(s[1..]);
      assert forall i :: 1 <= i < |s| ==> s[i] == s[1..][i - 1];
    }
  }

  lemma {:induction false} TrimEndEmptyIffBlank(s: string)
    ensures TrimEnd(s) == [] <==> forall i :: 0 <= i < |s| ==> Blank(s[i])
  {
    if s != [] && Blank(s[|s| - 1]) {
      TrimEndEmptyIffBlank(s[..|s| - 1]);
      assert forall i :: 0 <= i < |s| - 1 ==> s[i] == s[..|s| - 1][i];
    }
  }

  /** `id.trim().isEmpty()` holds exactly when every character of `id` is blank. */
  lemma TrimEmptyIffBlank(s: string)
    ensures Trim(s) == [] <==> forall i :: 0 <= i < |s| ==> Blank(s[i])
  {
    TrimStartEmptyIffBlank(s);
    TrimEndEmptyIffBlank(TrimStart(s));
  }

  /**
   * The Vehicle constructor's guard (`id == null || id.trim().isEmpty()`
   * throws): the id is present and holds a character above U+0020.
   */
  function IdAccepted(id: Option<string>): (ok: bool)
    ensures ok <==> id.Some? && exists i :: 0 <= i < |id.value| && !Blank(id.value[i])
  {
    if id.None? then false
    else
      TrimEmptyIffBlank(id.value);
      Trim(id.value) != []
  }

  // ---------------------------------------------------------------- fuel and mileage

  /**
   * The mutable state every modelled vehicle keeps: `fuelLevel`,
   * `currentMileage`, `lastFueledAt`, `mileageAtLastService` and the
   * `maintenanceNeeded` flag.
   */
  datatype Core = Core(fuelLevel: real, mileage: real, lastFueledAt: real, lastService: real, serviceFlag: bool)

  /** What every constructor sets: an empty tank, no mileage, nothing scheduled. */
  const Initial: Core := Core(0.0, 0.0, 0.0, 0.0, false)

  /** `consumeFuel(distance)`: burns `distance / efficiency`, or throws if the tank holds less. */
  function ConsumeFuel(c: Core, eff: real, distance: real): (r: (Result<real>, Core))
    requires eff > 0.0
    ensures r.0.Failure? <==> c.fuelLevel < distance / eff
    ensures r.0.Failure? ==> r.0.error == InsufficientFuel && r.1 == c
    ensures r.0.Success? ==> r.0.value * eff == distance && r.1.fuelLevel + r.0.value == c.fuelLevel
    ensures r.0.Success? ==> r.1.fuelLevel >= 0.0
    ensures r.1.(fuelLevel := c.fuelLevel) == c
  {
    var consumed := distance / eff;
    if consumed > c.fuelLevel then (Failure(InsufficientFuel), c)
    else (Success(consumed), c.(fuelLevel := c.fuelLevel - consumed))
  }

  /**
   * `move(distance)`: rejects a negative distance, then rejects a trip the
   * tank cannot cover, and otherwise consumes the fuel and adds the distance
   * to the mileage. A rejected move changes nothing.
   */
  function Move(c: Core, eff: real, distance: real): (r: (Outcome, Core))
    requires eff > 0.0
    ensures r.0 == Fail(InvalidOperation) <==> distance < 0.0
    ensures r.0 == Fail(InsufficientFuel) <==> 0.0 <= distance && c.fuelLevel < distance / eff
    ensures r.0.Fail? ==> r.1 == c
    ensures r.0.Pass? ==> r.1.mileage == c.mileage + distance && (c.fuelLevel - r.1.fuelLevel) * eff == distance
    ensures r.0.Pass? ==> r.1.(fuelLevel := c.fuelLevel, mileage := c.mileage) == c
    ensures c.fuelLevel >= 0.0 ==> r.1.fuelLevel >= 0.0
    ensures r.1.mileage >= c.mileage
  {
    if distance < 0.0 then (Fail(InvalidOperation), c)
    else if distance / eff > c.fuelLevel then (Fail(InsufficientFuel), c)
    else
      var (consumed, after) := ConsumeFuel(c, eff, distance);
      assert consumed.Success?;
      (Pass, after.(mileage := c.mileage + distance))
  }

  /** `refuel(amount)`: rejects a non-positive amount; otherwise fills up and records the mileage. */
  function Refuel(c: Core, amount: real): (r: (Outcome, Core))
    ensures r.0.Fail? <==> amount <= 0.0
    ensures r.0.Fail? ==> r.0.error == InvalidOperation && r.1 == c
    ensures r.0.Pass? ==> r.1.fuelLevel - c.fuelLevel == amount && r.1.lastFueledAt == c.mileage
    ensures r.1.fuelLevel >= c.fuelLevel
    ensures r.1.(fuelLevel := c.fuelLevel, lastFueledAt := c.lastFueledAt) == c
  {
    if amount <= 0.0 then (Fail(InvalidOperation), c)
    else (Pass, c.(fuelLevel := c.fuelLevel + amount, lastFueledAt := c.mileage))
  }

  /** Refuelling exactly the fuel a trip needs lets that trip succeed and empties the tank again. */
  lemma {:induction false} RefuelThenMove(c: Core, eff: real, distance: real)
    requires eff > 0.0 && distance > 0.0
    ensures var (o1, c1) := Refuel(c.(fuelLevel := 0.0), distance / eff);
            var (o2, c2) := Move(c1, eff, distance);
            o1 == Pass && o2 == Pass && c2.fuelLevel == 0.0 && c2.mileage == c.mileage + distance
  {
    var (o1, c1) := Refuel(c.(fuelLevel := 0.0), distance / eff);
    assert c1.fuelLevel == distance / eff;
    var (o2, c2) := Move(c1, eff, distance);
    assert (c1.fuelLevel - c2.fuelLevel) * eff == distance;
  }

  // ---------------------------------------------------------------- maintenance

  /** Mileage since the last service beyond which maintenance is due. */
  const ServiceInterval: real := 10000.0

  /** `needsMaintenance()`: more than 10000 since the last service, or explicitly scheduled. */
  function NeedsMaintenance(c: Core): (due: bool)
    ensures c.serviceFlag ==> due
    ensures !c.serviceFlag ==> (due <==> c.mileage > c.lastService + 10000.0)
  {
    c.mileage - c.lastService > ServiceInterval || c.serviceFlag
  }

  /** `scheduleMaintenance()`: sets the flag. */
  function ScheduleMaintenance(c: Core): (r: Core)
    ensures NeedsMaintenance(r)
    ensures r.serviceFlag && r.(serviceFlag := c.serviceFlag) == c
  {
    c.(serviceFlag := true)
  }

  /** `performMaintenance()`: clears the flag and records the current mileage as the last service. */
  function PerformMaintenance(c: Core): (r: Core)
    ensures !NeedsMaintenance(r)
    ensures r.lastService == r.mileage == c.mileage
    ensures r.(serviceFlag := c.serviceFlag, lastService := c.lastService) == c
  {
    c.(serviceFlag := false, lastService := c.mileage)
  }

  /** A second maintenance without travel in between changes nothing. */
  lemma PerformMaintenanceIdempotent(c: Core)
    ensures PerformMaintenance(PerformMaintenance(c)) == PerformMaintenance(c)
  {
  }

  /** The threshold is strict: exactly 10000 since the last service is not yet due. */
  lemma MaintenanceThreshold(c: Core)
    requires !c.serviceFlag
    ensures c.mileage - c.lastService == 10000.0 ==> !NeedsMaintenance(c)
    ensures c.mileage - c.lastService == 10000.01 ==> NeedsMaintenance(c)
  {
  }

  // ---------------------------------------------------------------- passengers and cargo

  /**
   * `boardPassengers(count)`: throws `Overload` when `current + count`
   * (32-bit `int` arithmetic) exceeds the capacity, otherwise adds `count`.
   * A negative count is not rejected.
   */
  function Board(current: i32, capacity: i32, count: i32): (r: (Outcome, i32))
    ensures r.0.Fail? <==> Add(current, count) > capacity
    ensures r.0.Fail? ==> r.0.error == Overload && r.1 == current
    ensures r.0.Pass? ==> r.1 == Add(current, count) && r.1 <= capacity
    ensures 0 <= current <= capacity && 0 <= count && current as int + count as int <= MAX ==>
              (r.0.Pass? <==> current as int + count as int <= capacity as int) && 0 <= r.1 <= capacity
  {
    var total := Add(current, count);
    if total > capacity then (Fail(Overload), current) else (Pass, total)
  }

  /**
   * `disembarkPassengers(count)`: throws `InvalidOperation` when more leave
   * than are on board, otherwise subtracts `count`. A negative count is not
   * rejected.
   */
  function Disembark(current: i32, count: i32): (r: (Outcome, i32))
    ensures r.0.Fail? <==> count > current
    ensures r.0.Fail? ==> r.0.error == InvalidOperation && r.1 == current
    ensures 0 <= count ==> 0 <= r.1 <= current || r.0.Fail?
    ensures r.0.Pass? && 0 <= count ==> r.1 as int == current as int - count as int
  {
    if count > current then (Fail(InvalidOperation), current) else (Pass, Sub(current, count))
  }

  /** `loadCargo(weight)`: throws `Overload` when the load would exceed the capacity. */
  function LoadCargo(current: real, capacity: real, weight: real): (r: (Outcome, real))
    ensures r.0.Fail? <==> current + weight > capacity
    ensures r.0.Fail? ==> r.0.error == Overload && r.1 == current
    ensures r.0.Pass? ==> r.1 - current == weight && r.1 <= capacity
    ensures 0.0 <= current && 0.0 <= weight ==> 0.0 <= r.1
  {
    if current + weight > capacity then (Fail(Overload), current) else (Pass, current + weight)
  }

  /** `unloadCargo(weight)`: throws `InvalidOperation` when more is unloaded than is aboard. */
  function UnloadCargo(current: real, weight: real): (r: (Outcome, real))
    ensures r.0.Fail? <==> weight > current
    ensures r.0.Fail? ==> r.0.error == InvalidOperation && r.1 == current
    ensures r.0.Pass? ==> current - r.1 == weight && 0.0 <= r.1
    ensures 0.0 <= weight ==> r.1 <= current
  {
    if weight > current then (Fail(InvalidOperation), current) else (Pass, current - weight)
  }

  /**
   * `current + count` is 32-bit: one passenger plus `Integer.MAX_VALUE`
   * more wraps to a negative total, which passes the capacity check.
   */
  lemma BoardOverflowPassesCheck()
    ensures Board(1, 5, MAX as i32) == (Pass, MIN as i32)
  {
  }

  /**
   * Without a non-negative count the capacity bound can break: a car with 5
   * passengers (its capacity) that "disembarks" -3 ends with 8.
   */
  lemma NegativeDisembarkExceedsCapacity()
    ensures Disembark(5, -3) == (Pass, 8)
  {
  }
}
