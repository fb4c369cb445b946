/** The hardware animation capability (src/capability/hw_animate.rs). */
module HwAnimateCapability {
  import opened Base
  import opened Errors
  import opened Devices

  datatype HWStaticColorOption = Red | Green | Blue

  datatype HWAnimationSpeedSetting =
    Speed1 | Speed2 | Speed3 | Speed4 | Speed5 | Speed6 | Speed7 | Speed8 | Speed9

  datatype HWAnimateOption = Pulsating(color: HWStaticColorOption, speed: HWAnimationSpeedSetting)

  /** `HWAnimate::set`: pushes `protocol.hw_animate(option)` once. */
  method Set(device: Device, hwAnimate: HWAnimateOption -> seq<Byte>, option: HWAnimateOption, link: Link)
    returns (r: Result<(), BluetoothError>)
    modifies device`events
    ensures device.Pushed(hwAnimate(option), link, r)
  {
    r := device.Push(hwAnimate(option), link);
  }
}
