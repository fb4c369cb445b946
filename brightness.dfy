/** The brightness capability (src/capability/brightness.rs). In this file
    both variants carry a `u8` level. */
module BrightnessCapability {
  import opened Base
  import opened Errors
  import opened Devices
  import opened ColorCapability

  datatype BrightnessOption =
    | Level(level: Byte)
    | LevelWithColor(level: Byte, color: ColorOption)

  /** `Brightness::set`: pushes `protocol.brightness(option)` once. */
  method Set(device: Device, brightness: BrightnessOption -> seq<Byte>, option: BrightnessOption, link: Link)
    returns (r: Result<(), BluetoothError>)
    modifies device`events
    ensures device.Pushed(brightness(option), link, r)
  {
    r := device.Push(brightness(option), link);
  }
}
