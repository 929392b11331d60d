/** The air-vehicle layer: its journey-time estimate (Airplane carries its altitude). */
module AirVehicles {

  /** Air travel is faster than the base time by this factor. */
  const AirOverhead: real := 0.95

  /** `estimateJourneyTime(distance)`: the base time `distance / maxSpeed`, scaled by 0.95. */
  function EstimateJourneyTime(distance: real, maxSpeed: real): (t: real)
    requires maxSpeed != 0.0
    ensures t * maxSpeed == distance * AirOverhead
    ensures distance == 0.0 ==> t == 0.0
  {
    var baseTime := distance / maxSpeed;
    baseTime * AirOverhead
  }

  /** A positive trip at a positive top speed takes strictly less than the base time. */
  lemma EstimateBelowBaseTime(distance: real, maxSpeed: real)
    requires distance > 0.0 && maxSpeed > 0.0
    ensures EstimateJourneyTime(distance, maxSpeed) < distance / maxSpeed
  {
    assert distance / maxSpeed > 0.0;
  }
}
