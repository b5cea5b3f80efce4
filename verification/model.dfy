/** The app's two data classes, `DeviceInfo` and `RoomStatus`. */
module Model {
  import opened Numbers

  /** A device of a room: its name and its type ("Bulb", "Fan", "Heater", ...). */
  datatype Device = Device(name: string, kind: string)

  /**
   * A room. `bulbs`, `power` and `comment` are display-only figures; `color`
   * is the room's accent color as a signed 32-bit ARGB value.
   */
  datatype Room = Room(
    name: string,
    bulbs: int,
    power: int,
    comment: string,
    devices: seq<Device>,
    color: Int32)

  /** `0xFF6200EE`, the default accent color, as the signed value `toArgb()` gives. */
  const DefaultColor: Int32 := ToInt32(0xFF6200EE)

  lemma DefaultColorValue()
    ensures DefaultColor == -10354450
  {
  }
}
