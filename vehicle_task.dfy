/**
 * `VehicleTask`: the loop one simulation thread runs for one vehicle. Each
 * iteration of its `while (running)` loop checks the fuel, honours the
 * pause flag, moves the vehicle one kilometre and adds that kilometre to
 * the highway counter. Here an iteration is one sequential step; the
 * one-second sleep and the threads around it are not modelled.
 */
module Simulation {
  import opened Wrappers
  import opened Int32
  import opened Vehicles
  import VehicleBase
  import Highways

  /** The three texts the task shows in its status label. */
  datatype Status = Running | Paused | OutOfFuel

  /** The task's `volatile` flags. */
  datatype Flags = Flags(running: bool, paused: bool, useSync: bool)

  /**
   * Everything one iteration reads or writes: the flags, the last status
   * shown (none before the first iteration), the vehicle's fuel and mileage
   * fields, and the highway counter.
   */
  datatype World = World(flags: Flags, status: Option<Status>, core: VehicleBase.Core, counter: i32)

  /** The fuel check at the top of an iteration: no fuel to speak of, or less than one kilometre needs. */
  function OutOfFuelCheck(fuel: real, efficiency: real): (out: bool)
    ensures efficiency > 0.0 ==> (out <==> fuel <= 0.0001 || fuel < 1.0 / efficiency)
  {
    var fuelNeeded := if efficiency > 0.0 then 1.0 / efficiency else 0.0;
    fuel <= 0.0001 || (fuelNeeded > 0.0 && fuel < fuelNeeded)
  }

  /** Once the fuel check passes, `move(1)` cannot run out of fuel, so the `catch` branch is never taken. */
  lemma FuelCheckGuaranteesMove(c: VehicleBase.Core, efficiency: real)
    requires efficiency > 0.0 && !OutOfFuelCheck(c.fuelLevel, efficiency)
    ensures VehicleBase.Move(c, efficiency, 1.0).0 == Pass
  {
    assert !(c.fuelLevel < 1.0 / efficiency);
  }

  /** One iteration of `run()`'s loop, or nothing once `running` is false. */
  function Tick(w: World, efficiency: real): (r: World)
    requires efficiency > 0.0
    ensures !w.flags.running ==> r == w
    ensures r.flags.running == w.flags.running && r.flags.useSync == w.flags.useSync
    ensures w.flags.running && OutOfFuelCheck(w.core.fuelLevel, efficiency) ==>
              r.flags.paused && r.status == Some(OutOfFuel) && r.core == w.core && r.counter == w.counter
    ensures w.flags.running && w.flags.paused && !OutOfFuelCheck(w.core.fuelLevel, efficiency) ==>
              r.flags.paused && r.status == Some(Paused) && r.core == w.core && r.counter == w.counter
    ensures r.status == Some(Running) && r != w <==>
              w.flags.running && !w.flags.paused && !OutOfFuelCheck(w.core.fuelLevel, efficiency)
    ensures r.counter == w.counter || r.counter == Add(w.counter, 1)
    ensures r.counter != w.counter ==> r.status == Some(Running) && r.core.mileage == w.core.mileage + 1.0
    ensures r.status == Some(Running) && r != w ==>
              r.counter == Add(w.counter, 1) && r.core.mileage == w.core.mileage + 1.0 &&
              (w.core.fuelLevel - r.core.fuelLevel) * efficiency == 1.0 && r.flags == w.flags &&
              r.core == VehicleBase.Move(w.core, efficiency, 1.0).1
  {
    if !w.flags.running then w
    else
      var outOfFuel := OutOfFuelCheck(w.core.fuelLevel, efficiency);
      if w.flags.paused || outOfFuel then
        w.(flags := w.flags.(paused := true), status := Some(if outOfFuel then OutOfFuel else Paused))
      else
        FuelCheckGuaranteesMove(w.core, efficiency);
        var (moved, core) := VehicleBase.Move(w.core, efficiency, 1.0);
        Int32.AddOneChanges(w.counter);
        if moved.Pass? then w.(status := Some(Running), core := core, counter := Add(w.counter, 1))
        else w.(flags := w.flags.(paused := true), status := Some(OutOfFuel))
  }

  /** `n` iterations of the loop. */
  function Ticks(w: World, efficiency: real, n: nat): World
    requires efficiency > 0.0
    decreases n
  {
    if n == 0 then w else Ticks(Tick(w, efficiency), efficiency, n - 1)
  }

  /** After `stop()` no iteration changes anything. */
  lemma {:induction false} StoppedTicksChangeNothing(w: World, efficiency: real, n: nat)
    requires efficiency > 0.0 && !w.flags.running
    ensures Ticks(w, efficiency, n) == w
  {
    if n > 0 {
      StoppedTicksChangeNothing(w, efficiency, n - 1);
    }
  }

  /**
   * Every kilometre on the counter is a kilometre the vehicle drove: over
   * `n` iterations the counter grows by at most `n` (no catch-up after a
   * pause), and by exactly as much as the mileage, while it does not wrap.
   */
  lemma {:induction false} TicksCounterMatchesMileage(w: World, efficiency: real, n: nat)
    requires efficiency > 0.0 && w.counter as int + n <= MAX
    ensures var r := Ticks(w, efficiency, n);
            w.counter <= r.counter && r.counter as int <= w.counter as int + n &&
            r.core.mileage - w.core.mileage == (r.counter as int - w.counter as int) as real
    decreases n
  {
    if n > 0 {
      var w1 := Tick(w, efficiency);
      assert w1.counter as int <= w.counter as int + 1;
      assert w1.core.mileage - w.core.mileage == (w1.counter as int - w.counter as int) as real;
      TicksCounterMatchesMileage(w1, efficiency, n - 1);
    }
  }

  class VehicleTask {
    const vehicle: Vehicle
    var running: bool
    var paused: bool
    var useSync: bool
    var status: Option<Status>

    /** The flags as one value. */
    function TaskFlags(): Flags
      reads this
    {
      Flags(running, paused, useSync)
    }

    /** What an iteration sees, with `h` as the highway. */
    function Observe(h: Highways.Highway): World
      reads this, Obj(vehicle), h
    {
      World(TaskFlags(), status, State(vehicle).core, h.distance)
    }

    constructor (vehicle: Vehicle)
      ensures this.vehicle == vehicle && TaskFlags() == Flags(true, false, false) && status == None
    {
      this.vehicle := vehicle;
      running := true;
      paused := false;
      useSync := false;
      status := None;
    }

    method SetUseSync(useSync: bool)
      modifies this
      ensures TaskFlags() == old(TaskFlags()).(useSync := useSync) && status == old(status)
    {
      this.useSync := useSync;
    }

    method SetPaused(paused: bool)
      modifies this
      ensures TaskFlags() == old(TaskFlags()).(paused := paused) && status == old(status)
    {
      this.paused := paused;
    }

    method SetRunning(running: bool)
      modifies this
      ensures TaskFlags() == old(TaskFlags()).(running := running) && status == old(status)
    {
      this.running := running;
    }

    /** `stop()`: the loop ends before its next iteration. */
    method Stop()
      modifies this
      ensures TaskFlags() == old(TaskFlags()).(running := false) && status == old(status)
    {
      running := false;
    }

    /** One pass of `while (running) { ... }`: the guard, then the body. */
    method Step(h: Highways.Highway) returns (ran: bool)
      modifies this, Obj(vehicle), h
      ensures ran == old(running)
      ensures Observe(h) == Tick(old(Observe(h)), old(Efficiency(vehicle)))
      ensures State(vehicle).passengers == old(State(vehicle).passengers) && State(vehicle).cargo == old(State(vehicle).cargo)
      ensures Efficiency(vehicle) == old(Efficiency(vehicle))
    {
      if !running {
        return false;
      }
      ran := true;
      var isOutOfFuel := false;
      if IsInstance(vehicle, FuelConsumableType) {
        var fuel := FuelLevel(vehicle);
        var efficiency := Efficiency(vehicle);
        var fuelNeeded := if efficiency > 0.0 then 1.0 / efficiency else 0.0;
        if fuel <= 0.0001 || (fuelNeeded > 0.0 && fuel < fuelNeeded) {
          isOutOfFuel := true;
          paused := true;
        }
      }
      if paused {
        status := Some(if isOutOfFuel then OutOfFuel else Paused);
        return;
      }
      var moved := Vehicles.Move(vehicle, 1.0);
      if moved.Pass? {
        if useSync {
          h.AddDistanceSafe(1);
        } else {
          h.AddDistanceUnsafe(1);
        }
      }
      // a failed move is reported as running out of fuel and pauses the task
      status := Some(if moved.Pass? then Running else OutOfFuel);
      paused := moved.Fail?;
    }

    /** Up to `n` passes of the loop: it ends early only if `running` is already false. */
    method Run(h: Highways.Highway, n: nat)
      modifies this, Obj(vehicle), h
      ensures Observe(h) == Ticks(old(Observe(h)), old(Efficiency(vehicle)), n)
      ensures State(vehicle).passengers == old(State(vehicle).passengers) && State(vehicle).cargo == old(State(vehicle).cargo)
      ensures Efficiency(vehicle) == old(Efficiency(vehicle))
    {
      ghost var efficiency := Efficiency(vehicle);
      var k := 0;
      while k < n && running
        invariant 0 <= k <= n
        invariant Efficiency(vehicle) == efficiency
        invariant State(vehicle).passengers == old(State(vehicle).passengers) && State(vehicle).cargo == old(State(vehicle).cargo)
        invariant Ticks(old(Observe(h)), efficiency, n) == Ticks(Observe(h), efficiency, n - k)
      {
        var _ := Step(h);
        k := k + 1;
      }
      if k < n {
        StoppedTicksChangeNothing(Observe(h), efficiency, n - k);
      }
    }
  }
}
