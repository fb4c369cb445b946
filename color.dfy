/** The colour capability (src/capability/color.rs). */
module ColorCapability {
  import opened Base
  import opened Errors
  import opened Devices

  datatype ColorOption = RGB(red: Byte, green: Byte, blue: Byte)

  /** `Color::set`: pushes `protocol.color(option)` once. */
  method Set(device: Device, color: ColorOption -> seq<Byte>, option: ColorOption, link: Link)
    returns (r: Result<(), BluetoothError>)
    modifies device`events
    ensures device.Pushed(color(option), link, r)
  {
    r := device.Push(color(option), link);
  }
}
