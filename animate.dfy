/** The animation capability (src/capability/animate.rs), a sibling of
    the hardware one with its own option types. */
module AnimateCapability {
  import opened Base
  import opened Errors
  import opened Devices

  datatype StaticColorOption = Red | Green | Blue

  datatype AnimationSpeedSetting =
    Speed1 | Speed2 | Speed3 | Speed4 | Speed5 | Speed6 | Speed7 | Speed8 | Speed9

  datatype AnimateOption = Pulsating(color: StaticColorOption, speed: AnimationSpeedSetting)

  /** `Animate::set`: pushes `protocol.animate(option)` once. */
  method Set(device: Device, animate: AnimateOption -> seq<Byte>, option: AnimateOption, link: Link)
    returns (r: Result<(), BluetoothError>)
    modifies device`events
    ensures device.Pushed(animate(option), link, r)
  {
    r := device.Push(animate(option), link);
  }
}
