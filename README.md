# Fleet management core in Dafny

A model of the core of a Java fleet-management system, in three parts.

**The vehicle hierarchy.** `Vehicle` has the land, air and water layers above the concrete `Car`, `Truck` and `Airplane`. Each concrete vehicle is a class with its own fields: fuel level, mileage, the mileage when last fuelled, the mileage at the last service, the maintenance flag, and passengers and/or cargo. Its guarded mutators (`move`, `refuel`, `consumeFuel`, board/disembark, load/unload, schedule/perform maintenance) are methods. Each one is proved equal to a pure function of module `VehicleBase`: for example, `Car.Move` ensures `(r, Core()) == VehicleBase.Move(old(Core()), Efficiency(), distance)`. The properties are then proved about those functions. Checked exceptions become the `Error` values of `Wrappers` (`InvalidOperation`, `InsufficientFuel`, `Overload`). Constructors that can throw become the factories `NewCar`, `NewTruck` and `NewAirplane`, which return a `Result`. Java's `int` is the wrapping 32-bit type `Int32.i32`, and `double` is `real`.

**`FleetManager`.** The fleet is an ordered `seq` of vehicle references, with the id set and the model set beside it. `Valid()` states the invariant that every mutator keeps: the sets are exactly the ids and models of the fleet, and no id appears twice. The three sorts are specified through `StableSort.SortBy`, a stable insertion sort. A stable sort by a total preorder has exactly one result, so this is what `Collections.sort` produces. The two comparators are pure functions in `Comparators`.

**The simulation.** `Highway` keeps the shared counter. `VehicleTask.Step` performs one iteration of the `run()` loop, proved equal to the pure `Simulation.Tick`; `Run` performs up to `n` iterations. The unsafe add is split into the read of `temp` and the write-back. Two adds interleaved read, read, write, write lose one update.

A polymorphic `Vehicle` reference is the datatype `Vehicles.Vehicle` (one constructor per concrete class). Its functions and methods dispatch as Java's virtual calls do.

## Model

| member | source | states |
|---|---|---|
| VehicleBase.IdAccepted | src/Vehicles/Vehicle.java:15-18 | the constructor's guard passes exactly when the id is present and has a character above U+0020, i.e. is not blank after `trim()` |
| VehicleBase.TrimEmptyIffBlank | src/Vehicles/Vehicle.java:16 | `trim()` gives the empty string exactly when every character is at most U+0020 |
| VehicleBase.ConsumeFuel | src/Vehicles/Car.java:99-106 | fails with `InsufficientFuel`, changing nothing, exactly when the tank holds less than `distance / eff`; otherwise returns the fuel burnt, and the burnt amount times `eff` is the distance; only the fuel level changes |
| VehicleBase.Move | src/Vehicles/Car.java:53-64 | `InvalidOperation` exactly for a negative distance; `InsufficientFuel` exactly when the fuel needed exceeds the tank; any failure leaves the state unchanged; a success adds the distance to the mileage and burns `distance / eff`, changing nothing else |
| VehicleBase.Refuel | src/Vehicles/Car.java:78-84 | fails with `InvalidOperation`, changing nothing, exactly when the amount is not positive; otherwise adds the amount to the tank and records the current mileage as `lastFueledAt` |
| VehicleBase.RefuelThenMove | src/Vehicles/Car.java:61-62 | refuelling an empty tank with exactly the fuel a positive trip needs lets that trip succeed; the tank ends empty and the mileage grows by the distance |
| VehicleBase.ScheduleMaintenance | src/Vehicles/Car.java:146-148 | sets the flag, so maintenance is due, and changes nothing else |
| VehicleBase.NeedsMaintenance | src/Vehicles/Car.java:152-154 | due whenever maintenance is scheduled; otherwise due exactly when the mileage exceeds the last service mileage by more than 10000 (the same method as Truck.java:149-151 and Airplane.java:188-190) |
| VehicleBase.PerformMaintenance | src/Vehicles/Car.java:158-162 | afterwards maintenance is not due and the service mileage equals the current mileage; only the flag and the service mileage change |
| VehicleBase.PerformMaintenanceIdempotent | src/Vehicles/Truck.java:155-159 | a second maintenance changes nothing |
| VehicleBase.MaintenanceThreshold | src/Vehicles/Car.java:152-154 | without the flag, exactly 10000 since the service is not due, and just above it is |
| VehicleBase.Board | src/Vehicles/Car.java:110-115 | fails with `Overload`, changing nothing, exactly when the 32-bit sum exceeds the capacity; otherwise the count becomes that sum. For counts within range it stays in `0..capacity` and fails exactly when the true sum exceeds the capacity |
| VehicleBase.Disembark | src/Vehicles/Car.java:120-125 | fails with `InvalidOperation`, changing nothing, exactly when more leave than are aboard; a non-negative count subtracts exactly and stays non-negative |
| VehicleBase.LoadCargo | src/Vehicles/Truck.java:108-113 | fails with `Overload`, changing nothing, exactly when the load would exceed the capacity; otherwise adds the weight and stays within the capacity |
| VehicleBase.UnloadCargo | src/Vehicles/Truck.java:117-122 | fails with `InvalidOperation`, changing nothing, exactly when more is unloaded than is aboard; otherwise subtracts the weight and stays non-negative |
| VehicleBase.BoardOverflowPassesCheck | src/Vehicles/Car.java:111-114 | the 32-bit sum of one on board plus `Integer.MAX_VALUE` wraps negative and passes the capacity check |
| VehicleBase.NegativeDisembarkExceedsCapacity | src/Vehicles/Car.java:121-124 | a negative count is accepted: five aboard, "disembark" -3, eight aboard, above the capacity of five |
| Int32.Wrap | src/Vehicles/Car.java:114 | the 32-bit value congruent to the argument modulo 2^32, and the identity on values in range |
| Int32.Add | src/Vehicles/Car.java:111 | Java's `int` addition: exact within range, 2^32 lower when it overflows upwards |
| Int32.Sub | src/Vehicles/Car.java:124 | Java's `int` subtraction: exact within range |
| Int32.AddOneChanges | src/simulation/Highway.java:43 | adding 1 always changes a 32-bit value, even at `MAX_VALUE` |
| LandVehicles.EstimateJourneyTime | src/Vehicles/LandVehicle.java:13-16 | the estimate times the top speed is 1.1 times the distance; zero for distance zero |
| LandVehicles.EstimateMonotone | src/Vehicles/LandVehicle.java:14-15 | with a positive top speed, a longer trip never has a smaller estimate |
| AirVehicles.EstimateJourneyTime | src/Vehicles/AirVehicle.java:16-19 | the estimate times the top speed is 0.95 times the distance; zero for distance zero |
| AirVehicles.EstimateBelowBaseTime | src/Vehicles/AirVehicle.java:17-18 | a positive trip at a positive speed takes strictly less than `distance / maxSpeed` |
| WaterVehicles.EstimateJourneyTime | src/Vehicles/WaterVehicle.java:14-17 | the estimate times the top speed is 1.15 times the distance; zero for distance zero |
| WaterVehicles.WaterSlowerThanLandSlowerThanAir | src/Vehicles/WaterVehicle.java:16 | for the same positive trip and speed, air < land < water |
| WaterVehicles.WaterVehicle.constructor | src/Vehicles/WaterVehicle.java:8-11 | keeps id, model, speed and `hasSail` as given (constants from then on); mileage and service mileage start at 0 |
| Cars.Car.constructor | src/Vehicles/Car.java:19-27 | id, model and speed as given (constants from then on); four wheels, capacity five; empty tank, zero mileage and service mileage, no passengers, no flag |
| Cars.Car.Efficiency | src/Vehicles/Car.java:72-74 | 15 |
| Cars.Car.SetCurrentMileage | src/Vehicles/Car.java:66-68 | only the mileage changes, to the given value |
| Cars.Car.SetMileageAtLastService | src/Vehicles/Car.java:47-49 | only the service mileage changes, to the given value |
| Cars.Car.ConsumeFuel | src/Vehicles/Car.java:99-106 | result and new state are `VehicleBase.ConsumeFuel` of the old state at efficiency 15; passengers unchanged |
| Cars.Car.Move | src/Vehicles/Car.java:53-64 | result and new state are `VehicleBase.Move` of the old state at efficiency 15; passengers unchanged |
| Cars.Car.Refuel | src/Vehicles/Car.java:78-84 | result and new state are `VehicleBase.Refuel` of the old state; passengers unchanged |
| Cars.Car.BoardPassengers | src/Vehicles/Car.java:110-115 | result and new count are `VehicleBase.Board` of the old count and capacity 5; fuel and mileage state unchanged |
| Cars.Car.DisembarkPassengers | src/Vehicles/Car.java:120-125 | result and new count are `VehicleBase.Disembark` of the old count; fuel and mileage state unchanged |
| Cars.Car.ScheduleMaintenance | src/Vehicles/Car.java:146-148 | new state is `VehicleBase.ScheduleMaintenance` of the old one |
| Cars.Car.PerformMaintenance | src/Vehicles/Car.java:158-162 | new state is `VehicleBase.PerformMaintenance` of the old one |
| Cars.NewCar | src/Vehicles/Vehicle.java:15-24 | fails with `IllegalArgument` exactly when the id is null or blank; otherwise a fresh car in its initial state |
| Trucks.CargoEfficiency | src/Vehicles/Truck.java:52-57 | positive; below 8 exactly when the cargo exceeds half the capacity; always 8 or 8 × 0.9 |
| Trucks.HeavierIsNoMoreEfficient | src/Vehicles/Truck.java:53 | more cargo never gives a higher efficiency |
| Trucks.HeavyTripCostsMore | src/Vehicles/Truck.java:54 | above half load a trip needs 10/9 of the light-load fuel |
| Trucks.Truck.constructor | src/Vehicles/Truck.java:18-26 | id, model and speed as given (constants from then on); wheel count as given; capacity 5000; initial state; no cargo |
| Trucks.Truck.Efficiency | src/Vehicles/Truck.java:52-57 | 8, or 8 × 0.9 = 7.2; below 8 exactly when the cargo is more than half the 5000 capacity |
| Trucks.Truck.SetCurrentMileage | src/Vehicles/Vehicle.java:43-45 | only the mileage changes, to the given value |
| Trucks.Truck.SetMileageAtLastService | src/Vehicles/Truck.java:46-48 | only the service mileage changes, to the given value |
| Trucks.Truck.ConsumeFuel | src/Vehicles/Truck.java:92-99 | result and new state are `VehicleBase.ConsumeFuel` at the efficiency on entry; cargo unchanged |
| Trucks.Truck.Move | src/Vehicles/Truck.java:61-72 | result and new state are `VehicleBase.Move` at the efficiency on entry; cargo unchanged |
| Trucks.Truck.Refuel | src/Vehicles/Truck.java:76-82 | result and new state are `VehicleBase.Refuel` of the old state; cargo unchanged |
| Trucks.Truck.LoadCargo | src/Vehicles/Truck.java:108-113 | result and new cargo are `VehicleBase.LoadCargo` with capacity 5000; fuel and mileage state unchanged |
| Trucks.Truck.UnloadCargo | src/Vehicles/Truck.java:117-122 | result and new cargo are `VehicleBase.UnloadCargo`; fuel and mileage state unchanged |
| Trucks.Truck.ScheduleMaintenance | src/Vehicles/Truck.java:143-145 | new state is `VehicleBase.ScheduleMaintenance` of the old one |
| Trucks.Truck.PerformMaintenance | src/Vehicles/Truck.java:155-159 | new state is `VehicleBase.PerformMaintenance` of the old one |
| Trucks.NewTruck | src/Vehicles/Truck.java:18-26 | fails with `IllegalArgument` exactly when the id is null or blank; otherwise a fresh truck in its initial state |
| Airplanes.Airplane.constructor | src/Vehicles/Airplane.java:23-33 | id, model and speed as given (constants from then on); altitude as given; capacities 200 and 10000; initial state, empty |
| Airplanes.Airplane.Efficiency | src/Vehicles/Airplane.java:59-61 | 5 |
| Airplanes.Airplane.SetCurrentMileage | src/Vehicles/Vehicle.java:43-45 | only the mileage changes, to the given value |
| Airplanes.Airplane.SetMileageAtLastService | src/Vehicles/Airplane.java:53-55 | only the service mileage changes, to the given value |
| Airplanes.Airplane.ConsumeFuel | src/Vehicles/Airplane.java:96-103 | result and new state are `VehicleBase.ConsumeFuel` at efficiency 5; passengers and cargo unchanged |
| Airplanes.Airplane.Move | src/Vehicles/Airplane.java:65-76 | result and new state are `VehicleBase.Move` at efficiency 5; passengers and cargo unchanged |
| Airplanes.Airplane.Refuel | src/Vehicles/Airplane.java:80-86 | result and new state are `VehicleBase.Refuel` of the old state |
| Airplanes.Airplane.BoardPassengers | src/Vehicles/Airplane.java:112-117 | result and new count are `VehicleBase.Board` with capacity 200; everything else unchanged |
| Airplanes.Airplane.DisembarkPassengers | src/Vehicles/Airplane.java:121-126 | result and new count are `VehicleBase.Disembark`; everything else unchanged |
| Airplanes.Airplane.LoadCargo | src/Vehicles/Airplane.java:147-152 | result and new cargo are `VehicleBase.LoadCargo` with capacity 10000; everything else unchanged |
| Airplanes.Airplane.UnloadCargo | src/Vehicles/Airplane.java:156-161 | result and new cargo are `VehicleBase.UnloadCargo`; everything else unchanged |
| Airplanes.Airplane.ScheduleMaintenance | src/Vehicles/Airplane.java:182-184 | new state is `VehicleBase.ScheduleMaintenance` of the old one |
| Airplanes.Airplane.PerformMaintenance | src/Vehicles/Airplane.java:194-198 | new state is `VehicleBase.PerformMaintenance` of the old one |
| Airplanes.NewAirplane | src/Vehicles/Airplane.java:23-33 | fails with `IllegalArgument` exactly when the id is null or blank; otherwise a fresh airplane in its initial state |
| Vehicles.Efficiency | src/Vehicles/Vehicle.java:28 | the dispatched efficiency is positive, and for a truck it is `CargoEfficiency` of its cargo |
| Vehicles.Move | src/Vehicles/Vehicle.java:27 | the dispatched `move` changes fuel and mileage as `VehicleBase.Move` says, and keeps passengers, cargo and efficiency |
| Vehicles.NeedsMaintenance | src/Vehicles/Airplane.java:188-190 | for each class, due exactly when its own `currentMileage - mileageAtLastService` exceeds 10000 or its `maintenanceNeeded` flag is set |
| Vehicles.IsInstance | src/Management/FleetManager.java:125 | `v` is an instance of `t` exactly when `t` is one of the classes and interfaces its class extends or implements (Car.java:10, Truck.java:10, Airplane.java:11, with the layers in LandVehicle.java:4 and AirVehicle.java:6) |
| Vehicles.PerformMaintenance | src/Vehicles/Car.java:158-162 | the dispatched maintenance applies `VehicleBase.PerformMaintenance` and keeps everything else |
| Vehicles.CompareTo | src/Vehicles/Vehicle.java:69-71 | negative exactly when the first vehicle is more efficient, zero exactly when equally efficient, positive exactly when less |
| Vehicles.Efficiencies | src/Vehicles/Vehicle.java:70 | a snapshot holding every fleet vehicle's current efficiency |
| Vehicles.NaturalOrderIsComparator | src/Vehicles/Vehicle.java:70 | over the snapshot, `compareTo` is sign-antisymmetric and transitive, and agrees with `CompareTo` |
| Vehicles.NaturalOrderSorted | src/Management/FleetManager.java:133-136 | a permutation sorted by the snapshot order lists efficiencies from high to low |
| Vehicles.DistinctIdsDistinctObjects | src/Management/FleetManager.java:38-41 | vehicles with distinct ids are distinct objects, so changing one leaves the others alone |
| Ordering.DoubleCompare | src/Management/Comparators/VehicleSpeedComparator.java:9 | `Double.compare` on non-NaN values: sign of `a - b` |
| Ordering.FoldCase | src/Management/Comparators/VehicleModelComparator.java:9 | the folded character is never an upper-case ASCII letter; 'A'..'Z' become the letter at the same place in 'a'..'z', and every other character is kept |
| Ordering.EqualsIgnoreCase | src/Management/FleetManager.java:404 | true exactly when the two strings are equal once every character is case-folded; equal strings are always equal ignoring case |
| Ordering.CompareIgnoreCase | src/Management/Comparators/VehicleModelComparator.java:9 | zero when the case-folded strings are equal; zero only for strings of one length |
| Ordering.CompareIgnoreCaseAntisymmetric | src/Management/Comparators/VehicleModelComparator.java:9 | swapping the arguments of `compareToIgnoreCase` negates the result |
| Ordering.CompareIgnoreCaseTransitive | src/Management/Comparators/VehicleModelComparator.java:9 | `compareToIgnoreCase` is transitive |
| Ordering.CompareIgnoreCaseZeroIff | src/Management/Comparators/VehicleModelComparator.java:9 | `compareToIgnoreCase` is zero exactly when `equalsIgnoreCase` holds |
| Ordering.CompareIgnoreCaseAscending | src/Management/Comparators/VehicleModelComparator.java:8-10 | a folded proper prefix, or a smaller folded character at the first difference, comes first |
| Comparators.SpeedCompare | src/Management/Comparators/VehicleSpeedComparator.java:8-10 | negative exactly when the first vehicle is faster, zero exactly when equally fast, positive exactly when slower |
| Comparators.SpeedCompareIsComparator | src/Management/Comparators/VehicleSpeedComparator.java:9 | sign-antisymmetric and transitive on any list |
| Comparators.ModelCompare | src/Management/Comparators/VehicleModelComparator.java:8-10 | zero exactly when the models are equal ignoring case |
| Comparators.ModelCompareIsComparator | src/Management/Comparators/VehicleModelComparator.java:9 | sign-antisymmetric and transitive on any list |
| Comparators.ModelCompareAscending | src/Management/Comparators/VehicleModelComparator.java:8-10 | A to Z on case-folded models, in both argument orders |
| StableSort.SortBy | src/Management/FleetManager.java:133-148 | the sort of `s` has as many elements as `s`; the lemmas below give its contents and order |
| StableSort.SortByPermutes | src/Management/FleetManager.java:133-148 | the sorted list is a permutation of the input |
| StableSort.SortBySorted | src/Management/FleetManager.java:133-148 | with a lawful comparator, the sorted list is ordered by it |
| StableSort.SortByStable | src/Management/FleetManager.java:133-148 | elements the comparator ranks equal keep their relative order |
| StableSort.SortByDistinct | src/Management/FleetManager.java:133-148 | sorting keeps the ids distinct |
| FleetManagement.RemoveAtKeepsIds | src/Management/FleetManager.java:60-61 | removing the vehicle at one position removes exactly its id from the id set, and the ids stay distinct |
| FleetManagement.PermutationKeepsSets | src/Management/FleetManager.java:133-148 | a permutation of the fleet has the same id set and model set |
| FleetManagement.OfTypeMembers | src/Management/FleetManager.java:122-130 | the search result holds exactly the fleet's vehicles of that type, and is no longer than the fleet |
| FleetManagement.OfTypeAppend | src/Management/FleetManager.java:124-128 | the filter distributes over concatenation, so it keeps fleet order |
| FleetManagement.OfTypeExtremes | src/Management/FleetManager.java:125 | searching for `Vehicle` returns the whole fleet; searching for `WaterVehicle` returns nothing |
| FleetManagement.NeedingMaintenanceMembers | src/Management/FleetManager.java:244-255 | the list holds exactly the fleet's vehicles that need maintenance |
| FleetManagement.NoneNeedingMaintenance | src/Management/FleetManager.java:244-255 | when no vehicle needs maintenance the list is empty |
| FleetManagement.TotalFuelSign | src/Management/FleetManager.java:93-105 | the estimate is non-negative for a non-negative distance, and zero at distance zero |
| FleetManagement.TotalFuelAppend | src/Management/FleetManager.java:94-104 | the estimate of a fleet is the sum of the estimates of its two parts |
| FleetManagement.Maintained | src/Management/FleetManager.java:111-115 | afterwards maintenance is not due; a vehicle that did not need it is unchanged; mileage, passengers and cargo are kept |
| FleetManagement.FleetManager.constructor | src/Management/FleetManager.java:30-34 | an empty fleet with empty sets, satisfying the invariant |
| FleetManagement.FleetManager.AddVehicle | src/Management/FleetManager.java:38-46 | fails with `InvalidOperation`, changing nothing, exactly when the id is already present; otherwise appends the vehicle and adds its id and model; the invariant is kept |
| FleetManagement.FleetManager.RebuildDistinctModels | src/Management/FleetManager.java:84-89 | the model set becomes exactly the models of the fleet; fleet and ids unchanged |
| FleetManagement.FleetManager.RemoveVehicle | src/Management/FleetManager.java:50-67 | fails with `InvalidOperation`, changing nothing, exactly when no vehicle has that exact id; otherwise removes that vehicle and its id and rebuilds the models; the invariant is kept |
| FleetManagement.FleetManager.StartAllJourneys | src/Management/FleetManager.java:71-80 | fleet order kept; every vehicle gets its own outcome and is changed exactly as its own `move` says, so a failure changes only that vehicle (nothing) and does not stop the rest |
| FleetManagement.FleetManager.GetTotalFuelConsumption | src/Management/FleetManager.java:93-105 | the loop's total is the sum of `distance / eff` over fuel-consuming vehicles with positive efficiency; nothing changes |
| FleetManagement.FleetManager.MaintainAll | src/Management/FleetManager.java:108-119 | each vehicle ends as `Maintained` of its old state, and afterwards no vehicle needs maintenance |
| FleetManagement.FleetManager.SearchByType | src/Management/FleetManager.java:122-130 | returns the order-preserving filter `OfType` of the fleet |
| FleetManagement.FleetManager.GetVehiclesNeedingMaintenance | src/Management/FleetManager.java:244-255 | returns the order-preserving filter `NeedingMaintenance` of the fleet |
| FleetManagement.FleetManager.SortWith | src/Management/FleetManager.java:133-148 | with a lawful comparator: the fleet becomes the stable sort of itself, a sorted permutation with ties in their old order; sets and invariant kept |
| FleetManagement.FleetManager.SortFleetByEfficiency | src/Management/FleetManager.java:133-136 | a permutation in `compareTo` order, efficiency from high to low, equal efficiencies in their old order; sets kept |
| FleetManagement.FleetManager.SortFleetByModel | src/Management/FleetManager.java:139-142 | a permutation in case-insensitive A to Z order, equal models in their old order; sets kept |
| FleetManagement.FleetManager.SortFleetBySpeed | src/Management/FleetManager.java:145-148 | a permutation with top speed from high to low, equal speeds in their old order; sets kept |
| FleetManagement.FleetManager.GetDistinctModels | src/Management/FleetManager.java:151-153 | exactly the models of the fleet's vehicles |
| FleetManagement.FleetManager.GetFastestVehicle | src/Management/FleetManager.java:156-159 | absent exactly for an empty fleet; otherwise a vehicle with the greatest top speed, and no earlier vehicle is as fast |
| FleetManagement.FleetManager.GetSlowestVehicle | src/Management/FleetManager.java:162-165 | absent exactly for an empty fleet; otherwise a vehicle with the smallest top speed, and no earlier vehicle is as slow |
| FleetManagement.FleetManager.GetVehicleById | src/Management/FleetManager.java:402-409 | fails with `NotFound` exactly when no id matches ignoring case; otherwise the first vehicle whose id matches |
| Highways.Highway.constructor | src/simulation/Highway.java:8 | the counter starts at 0 |
| Highways.Highway.Reset | src/simulation/Highway.java:11-13 | the counter becomes 0 |
| Highways.Highway.GetDistance | src/simulation/Highway.java:16-18 | returns the counter and changes nothing |
| Highways.Highway.AddDistanceSafe | src/simulation/Highway.java:42-44 | the counter grows by the amount (32-bit) |
| Highways.Highway.WriteBack | src/simulation/Highway.java:35 | the counter becomes `temp + amount`, whatever it was |
| Highways.Highway.AddDistanceUnsafe | src/simulation/Highway.java:27-36 | with no write in between, the counter grows by the amount |
| Highways.SafeAddsSum | src/simulation/Highway.java:42-44 | serialised non-negative adds without overflow raise the counter by their sum |
| Highways.SafeOnesFromZero | src/simulation/Highway.java:11-13 | from a reset, `n` safe adds of 1 leave exactly `n` |
| Highways.TwoUnsafeAddsInterleaved | src/simulation/Highway.java:20-35 | read, read, write, write: the counter ends at the first value plus only the second amount |
| Highways.TwoSafeAdds | src/simulation/Highway.java:42-44 | two safe adds one after the other deliver both amounts |
| Highways.LostUpdate | src/simulation/Highway.java:20-26 | the interleaved pair of unsafe adds of 1 ends one below the safe pair |
| Simulation.OutOfFuelCheck | src/simulation/VehicleTask.java:42-53 | with positive efficiency: out of fuel exactly when the fuel is at most 0.0001 or below `1 / eff` |
| Simulation.FuelCheckGuaranteesMove | src/simulation/VehicleTask.java:50-72 | once the fuel check passes, `move(1)` cannot fail |
| Simulation.Tick | src/simulation/VehicleTask.java:33-90 | a stopped task changes nothing; a failed fuel check pauses with "Out of Fuel" and changes neither vehicle nor counter; a paused task shows "Paused" and changes nothing else; "Running" after a change exactly when the task runs, is not paused and has fuel; then mileage and counter both grow by exactly 1, the fuel by exactly `1 / eff`, and the vehicle state is exactly a successful `VehicleBase.Move` of 1 |
| Simulation.StoppedTicksChangeNothing | src/simulation/VehicleTask.java:28-33 | after `stop()`, any number of further iterations change nothing |
| Simulation.TicksCounterMatchesMileage | src/simulation/VehicleTask.java:72-81 | over `n` iterations the counter grows by at most `n`, so nothing is caught up after a pause, and by exactly the mileage driven while it does not wrap |
| Simulation.VehicleTask.constructor | src/simulation/VehicleTask.java:13-23 | running, not paused, unsynchronised, no status yet |
| Simulation.VehicleTask.SetUseSync | src/simulation/VehicleTask.java:25 | only `useSync` changes |
| Simulation.VehicleTask.SetPaused | src/simulation/VehicleTask.java:26 | only `paused` changes |
| Simulation.VehicleTask.SetRunning | src/simulation/VehicleTask.java:27 | only `running` changes |
| Simulation.VehicleTask.Stop | src/simulation/VehicleTask.java:28 | `running` becomes false, nothing else changes |
| Simulation.VehicleTask.Step | src/simulation/VehicleTask.java:33-90 | one pass of the loop transforms flags, status, vehicle and counter exactly as `Tick` of the old observation; passengers, cargo and efficiency kept |
| Simulation.VehicleTask.Run | src/simulation/VehicleTask.java:32-98 | `n` passes of the loop (fewer once stopped) give exactly `Ticks` of the old observation; passengers, cargo and fuel efficiency are as before |

## Left out

- Bus and CargoShip appear only by name in the fleet code; their classes are not part of this model, so they are not modelled and `searchByType` knows only the modelled classes and layers.
- `saveToFile` / `loadFromFile`: file I/O with `%.1f` formatting and `Double.parseDouble`. The plain setters used only while loading (`setFuelLevel`, `setCurrentPassengers`, `setCurrentCargo`, `setMaintenanceNeeded`, `setLastFueledAt`) are left out with them. Loading can also add two vehicles with one id, which `Valid()` rules out.
- `generateReport`, `displayInfo` and all console output: presentation only.
- The GUI (`FleetSimulatorGUI`), the command-line menu (`Main`), `updateGUI` and `SwingUtilities.invokeLater`: user interface only. The status label text becomes the `Status` value.
- Threads: `Thread.sleep`, `InterruptedException`, `volatile` and the `synchronized` lock are not modelled. An iteration is one sequential step. The lost update is shown with one explicit read, read, write, write schedule.
- `Highway` keeps its counter in a static field; here the counter is one `Highway` object, handed to each task.
- `VehicleTask.Run`: `run()` loops until stopped; the model takes a bound `n` on the number of iterations.
- Getters (`getId`, `getFuelLevel`, `getPassengerCapacity`, ...) are field reads of the model, not separate members.
- IEEE-754 doubles are modelled as `real`. NaN, infinities, `-0.0` and rounding are not modelled. The journey-time estimates therefore require a non-zero top speed.
- `compareToIgnoreCase` and `equalsIgnoreCase` fold only the ASCII letters A–Z, not the rest of Unicode.
- Strings are sequences of Unicode scalar values, while Java strings are sequences of UTF-16 code units. The two agree on characters of the Basic Multilingual Plane. Outside it, Java counts two units per character and compares surrogates, so lengths and order can differ: Java ranks "\uFFFF" above U+10000, the model below. `Comparators.ModelCompare`, `SortFleetByModel` and `GetVehicleById` are therefore faithful only for models and ids within the Basic Multilingual Plane.
- A `null` model is not modelled, since model strings are never null here. In the source such a vehicle would make `distinctModels.add` throw after `fleet.add` and `vehicleIds.add` have run, leaving the add half done (FleetManager.java:42-44). No caller passes one.
- `getDistinctModels` returns the live `TreeSet`, so a caller could change it; the model returns the set as a value, which a caller cannot change.
- The `TreeSet` of models is a `set`; its sorted iteration order is not modelled.
- Each concrete class declares its own `mileageAtLastService`, which hides `Vehicle`'s. Every getter and setter that is used is the subclass's, so the model keeps one field per vehicle.
- The `FuelConsumable`, `PassengerCarrier`, `CargoCarrier` and `Maintainable` interfaces are represented only by `Vehicles.IsInstance`.
- `Collections.sort` is a merge sort; the model sorts by insertion. A stable sort by a total preorder has exactly one result, so the ensures describe the same list.
- The `catch` around `move(1)` in `VehicleTask.run` is modelled as written: it pauses and reports "Out of Fuel". `FuelCheckGuaranteesMove` shows it is never reached for the modelled vehicles, whose fuel check always runs first.
- Passenger counts follow the source as written. A negative count is accepted, and the 32-bit sum can wrap negative. The bound `0 <= passengers <= capacity` therefore holds only for non-negative counts without overflow; `BoardOverflowPassesCheck` and `NegativeDisembarkExceedsCapacity` show the two ways it breaks.
