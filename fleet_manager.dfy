/**
 * `FleetManager`: the fleet as an ordered list of vehicle references, with
 * the set of their ids and the set of their models kept beside it.
 */
module FleetManagement {
  import opened Wrappers
  import opened Ordering
  import opened StableSort
  import opened Vehicles
  import Comparators
  import VehicleBase

  // ---------------------------------------------------------------- the derived sets

  /** The ids of the vehicles of `s`. */
  function IdSet(s: seq<Vehicle>): set<string>
  {
    set v | v in s :: Id(v)
  }

  /** The models of the vehicles of `s`. */
  function ModelSet(s: seq<Vehicle>): set<string>
  {
    set v | v in s :: Model(v)
  }

  /** Removing the only vehicle with a given id removes exactly that id from the id set. */
  lemma RemoveAtKeepsIds(s: seq<Vehicle>, k: nat)
    requires DistinctBy(s, Id) && k < |s|
    ensures IdSet(s[..k] + s[k + 1..]) == IdSet(s) - {Id(s[k])}
    ensures DistinctBy(s[..k] + s[k + 1..], Id)
  {
    var t := s[..k] + s[k + 1..];
    assert forall i | 0 <= i < |t| :: t[i] == if i < k then s[i] else s[i + 1];
    forall x | x in IdSet(s) - {Id(s[k])} ensures x in IdSet(t) {
      var i :| 0 <= i < |s| && Id(s[i]) == x;
      assert i != k;
      if i < k { assert t[i] == s[i]; } else { assert t[i - 1] == s[i]; }
    }
    forall i, j | 0 <= i < j < |t| ensures Id(t[i]) != Id(t[j]) {
      if j < k {
      } else if i < k {
        assert Id(s[i]) != Id(s[j + 1]);
      } else {
        assert Id(s[i + 1]) != Id(s[j + 1]);
      }
    }
    forall i | 0 <= i < |t| ensures Id(t[i]) != Id(s[k]) {
      if i < k { assert Id(s[i]) != Id(s[k]); } else { assert Id(s[k]) != Id(s[i + 1]); }
    }
  }

  /** A permutation of the fleet has the same ids and models. */
  lemma PermutationKeepsSets(a: seq<Vehicle>, b: seq<Vehicle>)
    requires multiset(a) == multiset(b)
    ensures IdSet(a) == IdSet(b) && ModelSet(a) == ModelSet(b)
  {
    assert forall v :: v in a <==> v in multiset(a);
    assert forall v :: v in b <==> v in multiset(b);
  }

  // ---------------------------------------------------------------- read-only queries

  /** `searchByType(type)`: the vehicles of `s` that are instances of `t`, in fleet order. */
  function OfType(s: seq<Vehicle>, t: VehicleClass): seq<Vehicle>
  {
    if s == [] then []
    else OfType(s[..|s| - 1], t) + (if IsInstance(s[|s| - 1], t) then [s[|s| - 1]] else [])
  }

  /** A vehicle is found by `searchByType` exactly when it is in the fleet and of the type. */
  lemma {:induction false} OfTypeMembers(s: seq<Vehicle>, t: VehicleClass)
    ensures forall v :: v in OfType(s, t) <==> v in s && IsInstance(v, t)
    ensures |OfType(s, t)| <= |s|
  {
    if s != [] {
      var p := s[..|s| - 1];
      OfTypeMembers(p, t);
      assert s == p + [s[|s| - 1]];
    }
  }

  /** Filtering distributes over concatenation, so the result keeps the fleet's order. */
  lemma {:induction false} OfTypeAppend(a: seq<Vehicle>, b: seq<Vehicle>, t: VehicleClass)
    ensures OfType(a + b, t) == OfType(a, t) + OfType(b, t)
  {
    if b != [] {
      var q := b[..|b| - 1];
      assert (a + b)[..|a + b| - 1] == a + q;
      OfTypeAppend(a, q, t);
    } else {
      assert a + b == a;
    }
  }

  /** Every vehicle is a `Vehicle`; none of the modelled classes is a `WaterVehicle`. */
  lemma {:induction false} OfTypeExtremes(s: seq<Vehicle>)
    ensures OfType(s, VehicleType) == s
    ensures OfType(s, WaterVehicleType) == []
  {
    if s != [] {
      var p, v := s[..|s| - 1], s[|s| - 1];
      OfTypeExtremes(p);
      assert IsInstance(v, VehicleType) && !IsInstance(v, WaterVehicleType);
      assert OfType(s, VehicleType) == s by {
        assert s == p + [v];
      }
      assert OfType(s, WaterVehicleType) == [];
    }
  }

  /** `getVehiclesNeedingMaintenance()`: the maintainable vehicles of `s` that need maintenance, in order. */
  function NeedingMaintenance(s: seq<Vehicle>): seq<Vehicle>
    reads Objs(s)
  {
    if s == [] then []
    else
      var v := s[|s| - 1];
      assert Objs(s[..|s| - 1]) <= Objs(s) by {
        assert forall w | w in s[..|s| - 1] :: w in s;
      }
      NeedingMaintenance(s[..|s| - 1]) + (if IsInstance(v, MaintainableType) && Vehicles.NeedsMaintenance(v) then [v] else [])
  }

  lemma {:induction false} NeedingMaintenanceMembers(s: seq<Vehicle>)
    ensures forall v :: v in NeedingMaintenance(s) <==> v in s && Vehicles.NeedsMaintenance(v)
  {
    if s != [] {
      NeedingMaintenanceMembers(s[..|s| - 1]);
      assert s == s[..|s| - 1] + [s[|s| - 1]];
    }
  }

  /** When no vehicle needs maintenance, `getVehiclesNeedingMaintenance()` is empty. */
  lemma {:induction false} NoneNeedingMaintenance(s: seq<Vehicle>)
    requires forall i | 0 <= i < |s| :: !Vehicles.NeedsMaintenance(s[i])
    ensures NeedingMaintenance(s) == []
  {
    if s != [] {
      NoneNeedingMaintenance(s[..|s| - 1]);
    }
  }

  /** What one vehicle's fuel estimate contributes: `distance / efficiency` when it consumes fuel at a positive rate. */
  function FuelFor(v: Vehicle, distance: real): real
    reads Obj(v)
  {
    if IsInstance(v, FuelConsumableType) && Efficiency(v) > 0.0 then distance / Efficiency(v) else 0.0
  }

  /** `getTotalFuelConsumption(distance)`: the sum of the contributions over `s`. */
  function TotalFuel(s: seq<Vehicle>, distance: real): real
    reads Objs(s)
  {
    if s == [] then 0.0
    else
      assert Objs(s[..|s| - 1]) <= Objs(s) by {
        assert forall w | w in s[..|s| - 1] :: w in s;
      }
      TotalFuel(s[..|s| - 1], distance) + FuelFor(s[|s| - 1], distance)
  }

  /** The estimate for a non-negative distance is non-negative, and zero for distance zero. */
  lemma {:induction false} TotalFuelSign(s: seq<Vehicle>, distance: real)
    requires distance >= 0.0
    ensures TotalFuel(s, distance) >= 0.0
    ensures distance == 0.0 ==> TotalFuel(s, distance) == 0.0
  {
    if s != [] {
      assert Objs(s[..|s| - 1]) <= Objs(s) by {
        assert forall w | w in s[..|s| - 1] :: w in s;
      }
      TotalFuelSign(s[..|s| - 1], distance);
    }
  }

  /** The estimate is the sum of the estimates of the two parts of the fleet. */
  lemma {:induction false} TotalFuelAppend(a: seq<Vehicle>, b: seq<Vehicle>, distance: real)
    ensures TotalFuel(a + b, distance) == TotalFuel(a, distance) + TotalFuel(b, distance)
  {
    if b != [] {
      var q := b[..|b| - 1];
      assert (a + b)[..|a + b| - 1] == a + q;
      assert Objs(q) <= Objs(b) by {
        assert forall w | w in q :: w in b;
      }
      TotalFuelAppend(a, q, distance);
    } else {
      assert a + b == a;
    }
  }

  /** What `maintainAll` does to one vehicle: maintain it if it needs it, otherwise leave it alone. */
  function Maintained(s: VState): (r: VState)
    ensures !VehicleBase.NeedsMaintenance(r.core)
    ensures !VehicleBase.NeedsMaintenance(s.core) ==> r == s
    ensures r.core.mileage == s.core.mileage && r.passengers == s.passengers && r.cargo == s.cargo
  {
    if VehicleBase.NeedsMaintenance(s.core) then s.(core := VehicleBase.PerformMaintenance(s.core)) else s
  }

  // ---------------------------------------------------------------- the manager

  class FleetManager {
    var fleet: seq<Vehicle>
    var distinctModels: set<string>
    var vehicleIds: set<string>

    /** The sets are exactly the ids and the models of the fleet, and no id occurs twice. */
    ghost predicate Valid()
      reads this
    {
      && vehicleIds == IdSet(fleet)
      && distinctModels == ModelSet(fleet)
      && DistinctBy(fleet, Id)
    }

    constructor ()
      ensures Valid() && fleet == []
    {
      fleet := [];
      distinctModels := {};
      vehicleIds := {};
    }

    /** `addVehicle(v)`: rejects a duplicate id (compared exactly), otherwise appends `v`. */
    method AddVehicle(v: Vehicle) returns (r: Outcome)
      requires Valid()
      modifies this
      ensures Valid()
      ensures r.Fail? <==> Id(v) in old(vehicleIds)
      ensures r.Fail? ==> r.error == InvalidOperation && fleet == old(fleet)
      ensures r.Pass? ==> fleet == old(fleet) + [v]
      ensures r.Pass? ==> vehicleIds == old(vehicleIds) + {Id(v)} && distinctModels == old(distinctModels) + {Model(v)}
    {
      if Id(v) in vehicleIds {
        return Fail(InvalidOperation);
      }
      fleet := fleet + [v];
      vehicleIds := vehicleIds + {Id(v)};
      distinctModels := distinctModels + {Model(v)};
      r := Pass;
    }

    /** `rebuildDistinctModels()`: recomputes the model set from the fleet. */
    method RebuildDistinctModels()
      modifies this
      ensures distinctModels == ModelSet(fleet)
      ensures fleet == old(fleet) && vehicleIds == old(vehicleIds)
    {
      distinctModels := {};
      var i := 0;
      while i < |fleet|
        invariant 0 <= i <= |fleet|
        invariant distinctModels == ModelSet(fleet[..i])
        invariant fleet == old(fleet) && vehicleIds == old(vehicleIds)
      {
        assert fleet[..i + 1] == fleet[..i] + [fleet[i]];
        distinctModels := distinctModels + {Model(fleet[i])};
        i := i + 1;
      }
      assert fleet[..i] == fleet;
    }

    /**
     * `removeVehicle(id)`: removes the first vehicle whose id equals `id`
     * exactly, or fails if there is none.
     */
    method RemoveVehicle(id: string) returns (r: Outcome)
      requires Valid()
      modifies this
      ensures Valid()
      ensures r.Fail? <==> forall v | v in old(fleet) :: Id(v) != id
      ensures r.Fail? ==> r.error == InvalidOperation && fleet == old(fleet)
      ensures r.Pass? ==> exists k :: 0 <= k < |old(fleet)| && Id(old(fleet)[k]) == id && fleet == old(fleet)[..k] + old(fleet)[k + 1..]
      ensures r.Pass? ==> vehicleIds == old(vehicleIds) - {id}
    {
      var k := 0;
      while k < |fleet| && Id(fleet[k]) != id
        invariant 0 <= k <= |fleet|
        invariant forall j | 0 <= j < k :: Id(fleet[j]) != id
      {
        k := k + 1;
      }
      if k == |fleet| {
        return Fail(InvalidOperation);
      }
      RemoveAtKeepsIds(fleet, k);
      fleet := fleet[..k] + fleet[k + 1..];
      vehicleIds := vehicleIds - {id};
      RebuildDistinctModels();
      r := Pass;
    }

    /**
     * `startAllJourneys(distance)`: moves every vehicle in turn; a vehicle
     * that rejects the move is left as it was and the rest still travel.
     * The outcomes are the per-vehicle results Java only logs.
     */
    method StartAllJourneys(distance: real) returns (outcomes: seq<Outcome>)
      requires Valid()
      modifies Objs(fleet)
      ensures fleet == old(fleet) && |outcomes| == |fleet|
      ensures forall i | 0 <= i < |fleet| ::
        Travelled(old(State(fleet[i])), old(Efficiency(fleet[i])), distance, outcomes[i], State(fleet[i]))
    {
      DistinctIdsDistinctObjects(fleet);
      outcomes := [];
      var i := 0;
      while i < |fleet|
        invariant 0 <= i <= |fleet| && |outcomes| == i
        invariant fleet == old(fleet)
        invariant forall j | 0 <= j < i ::
          Travelled(old(State(fleet[j])), old(Efficiency(fleet[j])), distance, outcomes[j], State(fleet[j]))
        invariant forall j | i <= j < |fleet| :: unchanged(Obj(fleet[j]))
      {
        var v := fleet[i];
        label L:
        var o := Vehicles.Move(v, distance);
        assert forall j | 0 <= j < |fleet| && j != i :: unchanged@L(Obj(fleet[j]));
        outcomes := outcomes + [o];
        i := i + 1;
      }
    }

    /** `getTotalFuelConsumption(distance)`: the fuel the trip would take, without consuming any. */
    method GetTotalFuelConsumption(distance: real) returns (total: real)
      ensures total == TotalFuel(fleet, distance)
    {
      total := 0.0;
      var i := 0;
      while i < |fleet|
        invariant 0 <= i <= |fleet|
        invariant total == TotalFuel(fleet[..i], distance)
      {
        var v := fleet[i];
        assert fleet[..i + 1][..i] == fleet[..i];
        if IsInstance(v, FuelConsumableType) {
          var efficiency := Efficiency(v);
          if efficiency > 0.0 {
            total := total + distance / efficiency;
          }
        }
        i := i + 1;
      }
      assert fleet[..i] == fleet;
    }

    /** `maintainAll()`: performs maintenance on every maintainable vehicle that needs it. */
    method MaintainAll()
      requires Valid()
      modifies Objs(fleet)
      ensures fleet == old(fleet)
      ensures forall i | 0 <= i < |fleet| :: State(fleet[i]) == Maintained(old(State(fleet[i])))
      ensures NeedingMaintenance(fleet) == []
    {
      DistinctIdsDistinctObjects(fleet);
      var i := 0;
      while i < |fleet|
        invariant 0 <= i <= |fleet|
        invariant fleet == old(fleet)
        invariant forall j | 0 <= j < i :: State(fleet[j]) == Maintained(old(State(fleet[j])))
        invariant forall j | i <= j < |fleet| :: unchanged(Obj(fleet[j]))
      {
        var v := fleet[i];
        if IsInstance(v, MaintainableType) && Vehicles.NeedsMaintenance(v) {
          Vehicles.PerformMaintenance(v);
        }
        i := i + 1;
      }
      NoneNeedingMaintenance(fleet);
    }

    /** `searchByType(type)`. */
    method SearchByType(t: VehicleClass) returns (found: seq<Vehicle>)
      ensures found == OfType(fleet, t)
    {
      found := [];
      var i := 0;
      while i < |fleet|
        invariant 0 <= i <= |fleet|
        invariant found == OfType(fleet[..i], t)
      {
        assert fleet[..i + 1][..i] == fleet[..i];
        if IsInstance(fleet[i], t) {
          found := found + [fleet[i]];
        }
        i := i + 1;
      }
      assert fleet[..i] == fleet;
    }

    /** `getVehiclesNeedingMaintenance()`. */
    method GetVehiclesNeedingMaintenance() returns (found: seq<Vehicle>)
      ensures found == NeedingMaintenance(fleet)
    {
      found := [];
      var i := 0;
      while i < |fleet|
        invariant 0 <= i <= |fleet|
        invariant found == NeedingMaintenance(fleet[..i])
      {
        assert fleet[..i + 1][..i] == fleet[..i];
        var v := fleet[i];
        if IsInstance(v, MaintainableType) && Vehicles.NeedsMaintenance(v) {
          found := found + [v];
        }
        i := i + 1;
      }
      assert fleet[..i] == fleet;
    }

    /** `Collections.sort(fleet, cmp)`: a stable sort of the fleet in place. */
    method SortWith(cmp: (Vehicle, Vehicle) -> int)
      requires Valid() && ComparatorOn(cmp, fleet)
      modifies this
      ensures Valid()
      ensures fleet == SortBy(old(fleet), cmp)
      ensures multiset(fleet) == multiset(old(fleet))
      ensures Sorted(fleet, cmp)
      ensures forall x | x in old(fleet) :: Ties(fleet, x, cmp) == Ties(old(fleet), x, cmp)
      ensures vehicleIds == old(vehicleIds) && distinctModels == old(distinctModels)
    {
      SortByPermutes(fleet, cmp);
      SortBySorted(fleet, cmp, fleet);
      SortByDistinct(fleet, cmp, Id);
      forall x | x in fleet ensures Ties(SortBy(fleet, cmp), x, cmp) == Ties(fleet, x, cmp) {
        SortByStable(fleet, x, cmp);
      }
      PermutationKeepsSets(fleet, SortBy(fleet, cmp));
      fleet := SortBy(fleet, cmp);
    }

    /** `sortFleetByEfficiency()`: natural order, most efficient first, stable. */
    method SortFleetByEfficiency()
      requires Valid()
      modifies this
      ensures Valid()
      ensures multiset(fleet) == multiset(old(fleet))
      ensures forall i, j | 0 <= i < j < |fleet| :: CompareTo(fleet[i], fleet[j]) <= 0
      ensures forall i, j | 0 <= i < j < |fleet| :: Efficiency(fleet[i]) >= Efficiency(fleet[j])
      ensures forall x | x in old(fleet) ::
        Ties(fleet, x, NaturalOrder(old(Efficiencies(fleet)))) == Ties(old(fleet), x, NaturalOrder(old(Efficiencies(fleet))))
      ensures vehicleIds == old(vehicleIds) && distinctModels == old(distinctModels)
    {
      var effs := Efficiencies(fleet);
      var cmp := NaturalOrder(effs);
      NaturalOrderIsComparator(fleet);
      ghost var before := fleet;
      SortWith(cmp);
      NaturalOrderSorted(before, fleet, effs);
    }

    /** `sortFleetByModel()`: case-insensitive A to Z, stable. */
    method SortFleetByModel()
      requires Valid()
      modifies this
      ensures Valid()
      ensures multiset(fleet) == multiset(old(fleet))
      ensures Sorted(fleet, Comparators.ModelCompare)
      ensures forall x | x in old(fleet) :: Ties(fleet, x, Comparators.ModelCompare) == Ties(old(fleet), x, Comparators.ModelCompare)
      ensures vehicleIds == old(vehicleIds) && distinctModels == old(distinctModels)
    {
      Comparators.ModelCompareIsComparator(fleet);
      SortWith(Comparators.ModelCompare);
    }

    /** `sortFleetBySpeed()`: fastest first, stable. */
    method SortFleetBySpeed()
      requires Valid()
      modifies this
      ensures Valid()
      ensures multiset(fleet) == multiset(old(fleet))
      ensures forall i, j | 0 <= i < j < |fleet| :: MaxSpeed(fleet[i]) >= MaxSpeed(fleet[j])
      ensures forall x | x in old(fleet) :: Ties(fleet, x, Comparators.SpeedCompare) == Ties(old(fleet), x, Comparators.SpeedCompare)
      ensures vehicleIds == old(vehicleIds) && distinctModels == old(distinctModels)
    {
      Comparators.SpeedCompareIsComparator(fleet);
      SortWith(Comparators.SpeedCompare);
    }

    /** `getDistinctModels()`. */
    method GetDistinctModels() returns (models: set<string>)
      requires Valid()
      ensures forall m :: m in models <==> exists i :: 0 <= i < |fleet| && Model(fleet[i]) == m
    {
      models := distinctModels;
    }

    /**
     * `getFastestVehicle()`: `Collections.min` under the speed comparator,
     * which keeps the first vehicle of maximal top speed; absent for an
     * empty fleet.
     */
    method GetFastestVehicle() returns (r: Option<Vehicle>)
      ensures r.None? <==> fleet == []
      ensures r.Some? ==> forall v | v in fleet :: MaxSpeed(v) <= MaxSpeed(r.value)
      ensures r.Some? ==> exists k :: 0 <= k < |fleet| && fleet[k] == r.value &&
                                    forall j | 0 <= j < k :: MaxSpeed(fleet[j]) < MaxSpeed(r.value)
    {
      if fleet == [] {
        return None;
      }
      var candidate := fleet[0];
      ghost var k := 0;
      var i := 1;
      while i < |fleet|
        invariant 1 <= i <= |fleet| && 0 <= k < i && candidate == fleet[k]
        invariant forall j | 0 <= j < i :: MaxSpeed(fleet[j]) <= MaxSpeed(candidate)
        invariant forall j | 0 <= j < k :: MaxSpeed(fleet[j]) < MaxSpeed(candidate)
      {
        if Comparators.SpeedCompare(fleet[i], candidate) < 0 {
          candidate := fleet[i];
          k := i;
        }
        i := i + 1;
      }
      r := Some(candidate);
    }

    /**
     * `getSlowestVehicle()`: `Collections.max` under the speed comparator,
     * which keeps the first vehicle of minimal top speed; absent for an
     * empty fleet.
     */
    method GetSlowestVehicle() returns (r: Option<Vehicle>)
      ensures r.None? <==> fleet == []
      ensures r.Some? ==> forall v | v in fleet :: MaxSpeed(r.value) <= MaxSpeed(v)
      ensures r.Some? ==> exists k :: 0 <= k < |fleet| && fleet[k] == r.value &&
                                    forall j | 0 <= j < k :: MaxSpeed(r.value) < MaxSpeed(fleet[j])
    {
      if fleet == [] {
        return None;
      }
      var candidate := fleet[0];
      ghost var k := 0;
      var i := 1;
      while i < |fleet|
        invariant 1 <= i <= |fleet| && 0 <= k < i && candidate == fleet[k]
        invariant forall j | 0 <= j < i :: MaxSpeed(candidate) <= MaxSpeed(fleet[j])
        invariant forall j | 0 <= j < k :: MaxSpeed(candidate) < MaxSpeed(fleet[j])
      {
        if Comparators.SpeedCompare(fleet[i], candidate) > 0 {
          candidate := fleet[i];
          k := i;
        }
        i := i + 1;
      }
      r := Some(candidate);
    }

    /** `getVehicleById(id)`: the first vehicle whose id equals `id` ignoring case, or `NotFound`. */
    method GetVehicleById(id: string) returns (r: Result<Vehicle>)
      ensures r.Failure? <==> forall v | v in fleet :: !EqualsIgnoreCase(Id(v), id)
      ensures r.Failure? ==> r.error == NotFound
      ensures r.Success? ==> exists k :: 0 <= k < |fleet| && fleet[k] == r.value && EqualsIgnoreCase(Id(r.value), id) &&
                                      forall j | 0 <= j < k :: !EqualsIgnoreCase(Id(fleet[j]), id)
    {
      var i := 0;
      while i < |fleet|
        invariant 0 <= i <= |fleet|
        invariant forall j | 0 <= j < i :: !EqualsIgnoreCase(Id(fleet[j]), id)
      {
        if EqualsIgnoreCase(Id(fleet[i]), id) {
          return Success(fleet[i]);
        }
        i := i + 1;
      }
      r := Failure(NotFound);
    }
  }
}
