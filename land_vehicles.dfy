/** The land-vehicle layer: its journey-time estimate (Car and Truck carry its wheel count). */
module LandVehicles {

  /** Overhead factor of travel on land. */
  const LandOverhead: real := 1.1

  /** `estimateJourneyTime(distance)`: the base time `distance / maxSpeed`, scaled by 1.1. */
  function EstimateJourneyTime(distance: real, maxSpeed: real): (t: real)
    requires maxSpeed != 0.0
    ensures t * maxSpeed == distance * LandOverhead
    ensures distance == 0.0 ==> t == 0.0
  {
    var baseTime := distance / maxSpeed;
    baseTime * LandOverhead
  }

  /** With a positive top speed, a longer trip never takes less time. */
  lemma EstimateMonotone(d1: real, d2: real, maxSpeed: real)
    requires maxSpeed > 0.0 && d1 <= d2
    ensures EstimateJourneyTime(d1, maxSpeed) <= EstimateJourneyTime(d2, maxSpeed)
  {
    assert d1 / maxSpeed <= d2 / maxSpeed;
  }
}
