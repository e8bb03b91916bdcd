/**
 * The parts of the status document that the sensor path touches.
 * The full document schema is external; everything except the sensor
 * section is kept as an opaque map of members.
 */
module Api {
  import opened Wrappers

  /** One entry of a sensor list; its members are chosen by the sensor's template. */
  type Entry = map<string, string>

  /** The `sensors` section of the status document. */
  datatype Sensors = Sensors(peopleNowPresent: seq<Entry>, temperature: seq<Entry>)

  /** The status document: the static members and the optional sensor section. */
  datatype Status = Status(info: map<string, string>, sensors: Option<Sensors>)

  /** The section that is allocated when the first sensor value of a pass is read. */
  const EmptySensors := Sensors([], [])

  /**
   * A sensor template: turns a raw stored value into an entry appended to the
   * section (the template's `to_sensor`, which mutates the section through `&mut`).
   * Concrete templates are external, so nothing is assumed about them.
   */
  type SensorTemplate = (string, Sensors) -> Sensors

  /** A status modifier: a whole-document transformation (its `modify`). */
  type StatusModifier = Status -> Status
}
