/**
 * `DeviceControlCard`: which control a device gets and the value that
 * control writes to the device's remote path.
 */
module DeviceControl {
  import opened Model

  /** The one device type that gets a speed slider instead of an on/off switch. */
  const FanKind := "Fan"

  predicate HasSwitch(d: Device)
  {
    d.kind != FanKind
  }

  /** The value a switch writes: 1 when turned on, 0 when turned off. */
  function SwitchValue(on: bool): (v: int)
    ensures v == 0 || v == 1
    ensures v == 1 <==> on
  {
    if on then 1 else 0
  }
}
