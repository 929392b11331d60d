/** The two `Comparator<Vehicle>` classes the fleet sorts with. */
module Comparators {
  import opened Ordering
  import opened StableSort
  import opened Vehicles

  /** `VehicleSpeedComparator.compare`: `Double.compare(v2's top speed, v1's top speed)`, fastest first. */
  function SpeedCompare(v1: Vehicle, v2: Vehicle): (r: int)
    ensures r < 0 <==> MaxSpeed(v1) > MaxSpeed(v2)
    ensures r == 0 <==> MaxSpeed(v1) == MaxSpeed(v2)
    ensures r > 0 <==> MaxSpeed(v1) < MaxSpeed(v2)
  {
    DoubleCompare(MaxSpeed(v2), MaxSpeed(v1))
  }

  /** The speed comparator is sign-antisymmetric and transitive: a total preorder on top speed. */
  lemma SpeedCompareIsComparator(u: seq<Vehicle>)
    ensures ComparatorOn(SpeedCompare, u)
  {
    forall a, b | a in u && b in u ensures Sign(SpeedCompare(a, b)) == -Sign(SpeedCompare(b, a)) {
    }
  }

  /** `VehicleModelComparator.compare`: `v1.getModel().compareToIgnoreCase(v2.getModel())`. */
  function ModelCompare(v1: Vehicle, v2: Vehicle): (r: int)
    ensures r == 0 <==> EqualsIgnoreCase(Model(v1), Model(v2))
  {
    CompareIgnoreCaseZeroIff(Model(v1), Model(v2));
    CompareIgnoreCase(Model(v1), Model(v2))
  }

  /** The model comparator is sign-antisymmetric and transitive. */
  lemma ModelCompareIsComparator(u: seq<Vehicle>)
    ensures ComparatorOn(ModelCompare, u)
  {
    forall a, b | a in u && b in u ensures Sign(ModelCompare(a, b)) == -Sign(ModelCompare(b, a)) {
      CompareIgnoreCaseAntisymmetric(Model(a), Model(b));
    }
    forall a, b, c | a in u && b in u && c in u && ModelCompare(a, b) <= 0 && ModelCompare(b, c) <= 0
      ensures ModelCompare(a, c) <= 0
    {
      CompareIgnoreCaseTransitive(Model(a), Model(b), Model(c));
    }
  }

  /**
   * A to Z: a model whose case-folded text is a proper prefix of another's,
   * or is smaller at the first folded difference, is ranked first.
   */
  lemma ModelCompareAscending(v1: Vehicle, v2: Vehicle, k: nat)
    requires k <= |Model(v1)| && k < |Model(v2)|
    requires forall i :: 0 <= i < k ==> FoldCase(Model(v1)[i]) == FoldCase(Model(v2)[i])
    requires k == |Model(v1)| || FoldCase(Model(v1)[k]) < FoldCase(Model(v2)[k])
    ensures ModelCompare(v1, v2) < 0 && ModelCompare(v2, v1) > 0
  {
    CompareIgnoreCaseAscending(Model(v1), Model(v2), k);
    CompareIgnoreCaseAntisymmetric(Model(v1), Model(v2));
  }
}
