/** The Home Assistant sensor vocabulary the disk sensors use (a part of internal/hass). */
module Hass {

  /** `hass.SensorType`. */
  datatype SensorType = TypeSensor | TypeBinary

  /** `hass.SensorStateClass` / `sensor.SensorStateClass`. */
  datatype StateClass = StateMeasurement | StateTotal | StateTotalIncreasing
}
