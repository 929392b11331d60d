/**
 * The water-vehicle layer: its journey-time estimate and the `hasSail`
 * attribute. No concrete water vehicle is part of this model, so
 * `WaterVehicle` stands for the layer's own state.
 */
module WaterVehicles {
  import opened Wrappers
  import VehicleBase
  import LandVehicles
  import AirVehicles

  /** Overhead factor of travel on water. */
  const WaterOverhead: real := 1.15

  /** `estimateJourneyTime(distance)`: the base time `distance / maxSpeed`, scaled by 1.15. */
  function EstimateJourneyTime(distance: real, maxSpeed: real): (t: real)
    requires maxSpeed != 0.0
    ensures t * maxSpeed == distance * WaterOverhead
    ensures distance == 0.0 ==> t == 0.0
  {
    var baseTime := distance / maxSpeed;
    baseTime * WaterOverhead
  }

  /** For the same positive trip and top speed, water is slower than land, and land slower than air. */
  lemma WaterSlowerThanLandSlowerThanAir(distance: real, maxSpeed: real)
    requires distance > 0.0 && maxSpeed > 0.0
    ensures AirVehicles.EstimateJourneyTime(distance, maxSpeed)
          < LandVehicles.EstimateJourneyTime(distance, maxSpeed)
          < EstimateJourneyTime(distance, maxSpeed)
  {
    assert distance / maxSpeed > 0.0;
  }

  class WaterVehicle {
    const id: string
    const model: string
    const maxSpeed: real
    const hasSail: bool
    var currentMileage: real
    var mileageAtLastService: real

    constructor (id: string, model: string, maxSpeed: real, hasSail: bool)
      requires VehicleBase.IdAccepted(Some(id))
      ensures this.id == id && this.model == model && this.maxSpeed == maxSpeed
      ensures this.hasSail == hasSail
      ensures currentMileage == 0.0 && mileageAtLastService == 0.0
    {
      this.id := id;
      this.model := model;
      this.maxSpeed := maxSpeed;
      this.hasSail := hasSail;
      currentMileage := 0.0;
      mileageAtLastService := 0.0;
    }
  }
}
